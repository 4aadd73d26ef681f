/** The recurring bills table and its controller: listing ordered by the
    `due_day` column, creation, update and deletion. */
module RecurringBillController {
  import opened Wrappers
  import opened Requests
  import opened Records
  import opened Tables
  import opened Ordering

  /** The rules of both `store` and `update`. */
  const Rules: seq<FieldRule> := [
    FieldRule("name", Required, Text(None)),
    FieldRule("amount", Required, Numeric),
    FieldRule("due_day", Required, WholeNumber(1, 31)),
    FieldRule("status", Required, OneOf(["paid", "upcoming"])),
    FieldRule("logo", Nullable, Text(None))
  ]

  /** The column default of `theme`, which no request writes. */
  const ThemeDefault := "#000000"

  function Digit(d: nat): (c: char)
    requires d < 10
    ensures '0' <= c <= '9' && c as int - '0' as int == d
  {
    (d + '0' as int) as char
  }

  /** The decimal text of a number, as an integer is written into a string
      column: no sign, no leading zero. */
  function DecimalText(n: nat): (r: string)
    ensures r != [] && forall i :: 0 <= i < |r| ==> '0' <= r[i] <= '9'
  {
    if n < 10 then [Digit(n)] else DecimalText(n / 10) + [Digit(n % 10)]
  }

  /** The number a text of digits stands for, read left to right. */
  function DecimalValue(s: string): int {
    if s == [] then 0 else 10 * DecimalValue(s[..|s| - 1]) + (s[|s| - 1] as int - '0' as int)
  }

  lemma {:induction false} DecimalRoundTrip(n: nat)
    ensures DecimalValue(DecimalText(n)) == n
  {
    if n >= 10 {
      DecimalRoundTrip(n / 10);
      var s := DecimalText(n);
      assert s[..|s| - 1] == DecimalText(n / 10);
    }
  }

  /** A bill as `store` and `update` leave it: a day of the month written as
      decimal text, and one of the two statuses. */
  predicate WellFormed(b: RecurringBill) {
    && b.status in ["paid", "upcoming"]
    && 1 <= DecimalValue(b.dueDay) <= 31
    && b.dueDay == DecimalText(DecimalValue(b.dueDay))
  }

  /** The validated due day of an admitted request. */
  function DueDay(req: Request): nat {
    var c := CentsOf(Get(req, "due_day"));
    if c >= 0 then c / 100 else 0
  }

  /** The value of a nullable text field. */
  function NullableText(v: Value): Option<string> {
    if v.Str? then Some(v.s) else None
  }

  /** The bill `store` creates from an admitted request. */
  function NewBill(req: Request): RecurringBill {
    RecurringBill(TextOf(Get(req, "name")), CentsOf(Get(req, "amount")), DecimalText(DueDay(req)),
                  TextOf(Get(req, "status")), NullableText(Get(req, "logo")), ThemeDefault)
  }

  /** The bill `update` leaves from an admitted request: every validated
      column rewritten, `logo` only when the request names it, `theme`
      kept. */
  function Revised(b: RecurringBill, req: Request): RecurringBill {
    b.(name := TextOf(Get(req, "name")), amount := CentsOf(Get(req, "amount")), dueDay := DecimalText(DueDay(req)),
       status := TextOf(Get(req, "status")), logo := if "logo" in req then NullableText(req["logo"]) else b.logo)
  }

  /** The rules admit a request exactly when the client sent `name` as a
      non-blank string, `amount` as a number, `due_day` as a whole number
      from 1 to 31, `status` as `paid` or `upcoming` once trimmed, and
      `logo`, if at all, as a string (blank included) or null. */
  lemma Admission(req: Request)
    ensures Validate(Rules, Normalize(req), AnyDate).Ok? <==>
              && FilledText(req, "name") && FilledNumber(req, "amount")
              && "due_day" in req && req["due_day"].Num? && req["due_day"].cents % 100 == 0
              && 1 <= req["due_day"].cents / 100 <= 31
              && "status" in req && req["status"].Str? && Trim(req["status"].s) in ["paid", "upcoming"]
              && ("logo" in req ==> req["logo"].Str? || req["logo"].Null?)
  {
    var n := Normalize(req);
    RulesPass(n);
    NormalizedText(req, "name");
    NormalizedNumber(req, "amount");
    NormalizedNumber(req, "due_day");
    NormalizedStatus(req);
  }

  lemma NormalizedStatus(req: Request)
    ensures ("status" in Normalize(req) && Normalize(req)["status"] in {Str("paid"), Str("upcoming")}) <==>
              ("status" in req && req["status"].Str? && Trim(req["status"].s) in ["paid", "upcoming"])
  {
  }

  lemma RulesPass(req: Request)
    ensures Validate(Rules, req, AnyDate).Ok? <==>
              && FilledText(req, "name") && FilledNumber(req, "amount")
              && "due_day" in req && req["due_day"].Num? && req["due_day"].cents % 100 == 0
              && 1 <= req["due_day"].cents / 100 <= 31
              && "status" in req && req["status"] in {Str("paid"), Str("upcoming")}
              && ("logo" in req ==> req["logo"].Str? || req["logo"].Null?)
  {
    assert !IsBlank("paid") by { assert !IsTrimmed("paid"[0]); }
    assert !IsBlank("upcoming") by { assert !IsTrimmed("upcoming"[0]); }
    assert Passes(Rules[0], req, AnyDate) <==> FilledText(req, "name");
    assert Passes(Rules[1], req, AnyDate) <==> FilledNumber(req, "amount");
    assert Passes(Rules[2], req, AnyDate) <==>
             "due_day" in req && req["due_day"].Num? && req["due_day"].cents % 100 == 0
             && 1 <= req["due_day"].cents / 100 <= 31;
    assert Passes(Rules[3], req, AnyDate) <==> "status" in req && req["status"] in {Str("paid"), Str("upcoming")};
    assert Passes(Rules[4], req, AnyDate) <==> ("logo" in req ==> req["logo"].Str? || req["logo"].Null?);
    AllOfFive(Rules, req, AnyDate);
  }

  /** Every bill an admitted request produces is well formed, and a created
      bill carries the default theme. */
  lemma AdmittedBillsWellFormed(req: Request, b: RecurringBill)
    requires Validate(Rules, req, AnyDate).Ok?
    ensures WellFormed(NewBill(req)) && NewBill(req).theme == ThemeDefault
    ensures WellFormed(Revised(b, req))
    ensures DecimalValue(NewBill(req).dueDay) == req["due_day"].cents / 100
  {
    RulesPass(req);
    DecimalRoundTrip(DueDay(req));
  }

  /** `due_day` text order, as `orderBy('due_day', 'asc')` on a string
      column. */
  predicate DayTextNotAfter(a: Row<RecurringBill>, b: Row<RecurringBill>) {
    TextLe(a.record.dueDay, b.record.dueDay)
  }

  lemma DayTextOrderIsTotalPreorder()
    ensures TotalPreorder(DayTextNotAfter)
  {
    forall a: Row<RecurringBill>, b: Row<RecurringBill>
      ensures DayTextNotAfter(a, b) || DayTextNotAfter(b, a)
    {
      TextLeTotal(a.record.dueDay, b.record.dueDay);
    }
    forall a: Row<RecurringBill>, b: Row<RecurringBill>, c: Row<RecurringBill> | DayTextNotAfter(a, b) && DayTextNotAfter(b, c)
      ensures DayTextNotAfter(a, c)
    {
      TextLeTransitive(a.record.dueDay, b.record.dueDay, c.record.dueDay);
    }
  }

  /** `index`, as written: the rows of the table in text order of
      `due_day`. */
  function Index(bills: Table<RecurringBill>): (r: seq<Row<RecurringBill>>)
    reads bills
    requires bills.Valid()
    ensures SortedBy(r, DayTextNotAfter)
    ensures multiset(r) == multiset(bills.Listing())
  {
    DayTextOrderIsTotalPreorder();
    SortBy(bills.Listing(), DayTextNotAfter)
  }

  /** In the text order a bill due on the 10th is listed before a bill due
      on the 2nd. */
  lemma IndexListsTenthBeforeSecond(bills: Table<RecurringBill>, i: nat, j: nat)
    requires bills.Valid()
    requires i < |Index(bills)| && j < |Index(bills)|
    requires Index(bills)[i].record.dueDay == DecimalText(10) && Index(bills)[j].record.dueDay == DecimalText(2)
    ensures i < j
  {
    DayTextOrderIsTotalPreorder();
    assert DecimalText(10) == "10";
    assert DecimalText(2) == "2";
    assert !TextLe("2", "10");
    SortedStrictlyBefore(Index(bills), DayTextNotAfter, i, j);
  }

  /** Numeric order of `due_day`. */
  predicate DayNumberNotAfter(a: Row<RecurringBill>, b: Row<RecurringBill>) {
    DecimalValue(a.record.dueDay) <= DecimalValue(b.record.dueDay)
  }

  lemma DayNumberOrderIsTotalPreorder()
    ensures TotalPreorder(DayNumberNotAfter)
  {
  }

  /** `index` as evidently intended: the rows of the table in order of the
      day of the month. */
  function IndexByDayNumber(bills: Table<RecurringBill>): (r: seq<Row<RecurringBill>>)
    reads bills
    requires bills.Valid()
    ensures SortedBy(r, DayNumberNotAfter)
    ensures multiset(r) == multiset(bills.Listing())
  {
    DayNumberOrderIsTotalPreorder();
    SortBy(bills.Listing(), DayNumberNotAfter)
  }

  /** In the numeric order the bill due on the 2nd comes first. */
  lemma IndexByDayNumberListsSecondBeforeTenth(bills: Table<RecurringBill>, i: nat, j: nat)
    requires bills.Valid()
    requires i < |IndexByDayNumber(bills)| && j < |IndexByDayNumber(bills)|
    requires IndexByDayNumber(bills)[i].record.dueDay == DecimalText(2)
    requires IndexByDayNumber(bills)[j].record.dueDay == DecimalText(10)
    ensures i < j
  {
    var r := IndexByDayNumber(bills);
    DayNumberOrderIsTotalPreorder();
    DecimalRoundTrip(2);
    DecimalRoundTrip(10);
    assert !DayNumberNotAfter(r[j], r[i]);
    SortedStrictlyBefore(r, DayNumberNotAfter, i, j);
  }

  /** The bills `store` and `update` build from the validated fields are
      the new bill and the revised bill of the request. */
  lemma BuiltFromValidated(n: Request, b: RecurringBill)
    ensures var validated := Validated(Rules, n);
      && RecurringBill(TextOf(Get(validated, "name")), CentsOf(Get(validated, "amount")),
                       DecimalText(DueDay(validated)), TextOf(Get(validated, "status")),
                       NullableText(Get(validated, "logo")), ThemeDefault) == NewBill(n)
      && b.(name := TextOf(Get(validated, "name")), amount := CentsOf(Get(validated, "amount")),
            dueDay := DecimalText(DueDay(validated)), status := TextOf(Get(validated, "status")),
            logo := if "logo" in validated then NullableText(validated["logo"]) else b.logo) == Revised(b, n)
  {
    ValidatedAgrees(Rules, n);
    assert Rules[0].key == "name" && Rules[1].key == "amount" && Rules[2].key == "due_day" && Rules[3].key == "status";
    assert Rules[4].key == "logo";
  }

  /** `store`: an admitted request adds one well-formed bill; any other
      changes nothing. */
  method Store(bills: Table<RecurringBill>, req: Request) returns (resp: Response<Row<RecurringBill>>)
    requires bills.Valid()
    modifies bills
    ensures bills.Valid()
    ensures Validate(Rules, Normalize(req), AnyDate).Ok? ==>
              && WellFormed(NewBill(Normalize(req)))
              && resp == Created(Row(old(bills.nextId), NewBill(Normalize(req))))
              && bills.rows == old(bills.rows)[old(bills.nextId) := NewBill(Normalize(req))]
    ensures Validate(Rules, Normalize(req), AnyDate).Err? ==>
              && resp == Unprocessable(Failures(Rules, Normalize(req), AnyDate))
              && bills.rows == old(bills.rows) && bills.nextId == old(bills.nextId)
  {
    var input := Normalize(req);
    var v := Validate(Rules, input, AnyDate);
    if v.Err? {
      return Unprocessable(v.error);
    }
    AdmittedBillsWellFormed(input, NewBill(input));
    var validated := v.value;
    BuiltFromValidated(input, NewBill(input));
    var bill := RecurringBill(TextOf(Get(validated, "name")), CentsOf(Get(validated, "amount")),
                              DecimalText(DueDay(validated)), TextOf(Get(validated, "status")),
                              NullableText(Get(validated, "logo")), ThemeDefault);
    var id := bills.Insert(bill);
    resp := Created(Row(id, bill));
  }

  /** `update`: an unknown id is not found; a request that fails the rules
      changes nothing; otherwise only that bill is rewritten. */
  method Update(bills: Table<RecurringBill>, id: nat, req: Request) returns (resp: Response<Row<RecurringBill>>)
    requires bills.Valid()
    modifies bills
    ensures bills.Valid() && bills.nextId == old(bills.nextId)
    ensures id !in old(bills.rows) ==> resp == NotFound && bills.rows == old(bills.rows)
    ensures id in old(bills.rows) && Validate(Rules, Normalize(req), AnyDate).Err? ==>
              resp == Unprocessable(Failures(Rules, Normalize(req), AnyDate)) && bills.rows == old(bills.rows)
    ensures id in old(bills.rows) && Validate(Rules, Normalize(req), AnyDate).Ok? ==>
              && var b := Revised(old(bills.rows)[id], Normalize(req));
              && WellFormed(b) && b.theme == old(bills.rows)[id].theme
              && resp == Success(Row(id, b))
              && bills.rows == old(bills.rows)[id := b]
  {
    if id !in bills.rows {
      return NotFound;
    }
    var input := Normalize(req);
    var v := Validate(Rules, input, AnyDate);
    if v.Err? {
      return Unprocessable(v.error);
    }
    AdmittedBillsWellFormed(input, bills.rows[id]);
    var validated := v.value;
    BuiltFromValidated(input, bills.rows[id]);
    var bill := bills.rows[id].(name := TextOf(Get(validated, "name")), amount := CentsOf(Get(validated, "amount")),
                                dueDay := DecimalText(DueDay(validated)), status := TextOf(Get(validated, "status")),
                                logo := if "logo" in validated then NullableText(validated["logo"]) else bills.rows[id].logo);
    bills.Replace(id, bill);
    resp := Success(Row(id, bill));
  }

  /** `destroy`: removes exactly the given bill and answers `Deleted`; an
      unknown id is not found and nothing changes. */
  method Destroy(bills: Table<RecurringBill>, id: nat) returns (resp: Response<Row<RecurringBill>>)
    requires bills.Valid()
    modifies bills
    ensures bills.Valid() && bills.nextId == old(bills.nextId)
    ensures id !in old(bills.rows) ==> resp == NotFound && bills.rows == old(bills.rows)
    ensures id in old(bills.rows) ==> resp == Message("Deleted") && bills.rows == old(bills.rows) - {id}
  {
    if id !in bills.rows {
      return NotFound;
    }
    bills.Delete(id);
    resp := Message("Deleted");
  }
}
