/** The transactions table and its controller: newest-first listing,
    creation and update with a generated avatar URL, and deletion. */
module TransactionController {
  import opened Wrappers
  import opened Requests
  import opened Records
  import opened Tables
  import opened Ordering
  import opened UrlEncoding

  /** The rules of both `store` and `update`. */
  const Rules: seq<FieldRule> := [
    FieldRule("name", Required, Text(None)),
    FieldRule("amount", Required, Numeric),
    FieldRule("category", Required, Text(None)),
    FieldRule("date", Required, Date),
    FieldRule("recurring", Unmarked, Boolean)
  ]

  /** Column defaults of `is_income` and `is_recurring`, which no request
      writes. */
  const IsIncomeDefault := false
  const IsRecurringDefault := false

  const AvatarPrefix := "https://ui-avatars.com/api/?name="
  const AvatarSuffix := "&background=random"

  /** The avatar URL derived from a transaction's name. */
  function AvatarUrl(name: string): string {
    AvatarPrefix + UrlEncode(Utf8(name)) + AvatarSuffix
  }

  /** The text of `s` before its first `&`: one query-string value. */
  function UpToAmpersand(s: string): (r: string)
    ensures |r| <= |s| && r == s[..|r|]
  {
    if s == [] || s[0] == '&' then [] else [s[0]] + UpToAmpersand(s[1..])
  }

  lemma {:induction false} UpToAmpersandOfEncoded(e: string, rest: string)
    requires forall i :: 0 <= i < |e| ==> EncodedChar(e[i])
    requires rest != [] && rest[0] == '&'
    ensures UpToAmpersand(e + rest) == e
  {
    if e != [] {
      assert (e + rest)[0] == e[0] && (e + rest)[1..] == e[1..] + rest;
      UpToAmpersandOfEncoded(e[1..], rest);
    } else {
      assert e + rest == rest;
    }
  }

  /** The avatar URL names the service's `name` parameter first, and that
      parameter decodes back to exactly the UTF-8 bytes of the name, for
      every name: no character of a name can end the parameter early. */
  lemma AvatarCarriesName(name: string)
    ensures AvatarUrl(name)[..|AvatarPrefix|] == AvatarPrefix
    ensures UrlDecode(UpToAmpersand(AvatarUrl(name)[|AvatarPrefix|..])) == Utf8(name)
  {
    var e := UrlEncode(Utf8(name));
    assert AvatarUrl(name)[|AvatarPrefix|..] == e + AvatarSuffix;
    EncodedChars(Utf8(name));
    UpToAmpersandOfEncoded(e, AvatarSuffix);
    DecodeEncode(Utf8(name));
  }

  /** The transaction `store` creates from a request that passes the rules,
      at time `now`. */
  function NewTransaction(req: Request, now: int): Transaction {
    var name := TextOf(Get(req, "name"));
    Transaction(name, TextOf(Get(req, "category")), CentsOf(Get(req, "amount")), TextOf(Get(req, "date")),
                Some(AvatarUrl(name)), IsIncomeDefault, IsRecurringDefault, now)
  }

  /** The transaction `update` leaves from a request that passes the rules:
      the four validated columns and the avatar rewritten, the rest kept. */
  function Revised(t: Transaction, req: Request): Transaction {
    var name := TextOf(Get(req, "name"));
    t.(name := name, category := TextOf(Get(req, "category")), amount := CentsOf(Get(req, "amount")),
       date := TextOf(Get(req, "date")), avatar := Some(AvatarUrl(name)))
  }

  /** The rules admit a request exactly when the client sent `name` and
      `category` as non-blank strings, `amount` as a number, `date` as a
      string that is a date once trimmed, and `recurring`, if at all, as one
      of the boolean forms: a blank `recurring` arrives as null and fails. */
  lemma Admission(req: Request, isDate: string -> bool)
    ensures Validate(Rules, Normalize(req), isDate).Ok? <==>
              && FilledText(req, "name") && FilledNumber(req, "amount") && FilledText(req, "category")
              && FilledText(req, "date") && isDate(Trim(req["date"].s))
              && ("recurring" in req ==> BooleanForm(req["recurring"]))
  {
    RulesPass(Normalize(req), isDate);
    NormalizedText(req, "name");
    NormalizedNumber(req, "amount");
    NormalizedText(req, "category");
    NormalizedText(req, "date");
    if "recurring" in req {
      NormalizedRecurring(req);
    }
  }

  /** The values the `boolean` rule takes, as the client may send them. */
  predicate BooleanForm(v: Value) {
    v in {Bool(true), Bool(false), Num(0), Num(100)} || (v.Str? && Trim(v.s) in ["0", "1"])
  }

  lemma NormalizedRecurring(req: Request)
    requires "recurring" in req
    ensures (Normalize(req)["recurring"] in {Bool(true), Bool(false), Num(0), Num(100), Str("0"), Str("1")})
              <==> BooleanForm(req["recurring"])
  {
    var v := req["recurring"];
    var n := Normalize(req)["recurring"];
    if !v.Str? {
      assert n == v;
    } else if IsBlank(v.s) {
      assert n == Null && Trim(v.s) == [];
    } else {
      assert n == Str(Trim(v.s));
      assert n in {Str("0"), Str("1")} <==> Trim(v.s) in ["0", "1"];
    }
  }

  lemma RulesPass(req: Request, isDate: string -> bool)
    ensures Validate(Rules, req, isDate).Ok? <==>
              && FilledText(req, "name") && FilledNumber(req, "amount") && FilledText(req, "category")
              && "date" in req && req["date"].Str? && !IsBlank(req["date"].s) && isDate(req["date"].s)
              && ("recurring" in req && !(req["recurring"].Str? && IsBlank(req["recurring"].s)) ==>
                    req["recurring"] in {Bool(true), Bool(false), Num(0), Num(100), Str("0"), Str("1")})
  {
    assert Rules[0].key == "name" && Rules[1].key == "amount" && Rules[2].key == "category";
    assert Rules[3].key == "date" && Rules[4].key == "recurring";
  }

  /** Whatever the request says about `avatar`, `recurring` or `is_income`,
      the stored transaction takes its avatar from the name and keeps the
      flag defaults. */
  lemma StoreIgnoresExtraFields(req: Request, other: Request, now: int)
    requires forall k :: k in {"name", "amount", "category", "date"} ==> Get(req, k) == Get(other, k)
    ensures NewTransaction(req, now) == NewTransaction(other, now)
    ensures NewTransaction(req, now).isIncome == IsIncomeDefault && NewTransaction(req, now).isRecurring == IsRecurringDefault
  {
    assert Get(req, "name") == Get(other, "name");
    assert Get(req, "amount") == Get(other, "amount");
    assert Get(req, "category") == Get(other, "category");
    assert Get(req, "date") == Get(other, "date");
  }

  /** Newest first by `created_at`. */
  predicate NewerOrSame(a: Row<Transaction>, b: Row<Transaction>) {
    a.record.createdAt >= b.record.createdAt
  }

  lemma NewerOrSameIsTotalPreorder()
    ensures TotalPreorder(NewerOrSame)
  {
  }

  /** `index`: the rows of the table, newest first. */
  function Index(transactions: Table<Transaction>): (r: seq<Row<Transaction>>)
    reads transactions
    requires transactions.Valid()
    ensures SortedBy(r, NewerOrSame)
    ensures multiset(r) == multiset(transactions.Listing())
  {
    NewerOrSameIsTotalPreorder();
    SortBy(transactions.Listing(), NewerOrSame)
  }

  /** The listing holds each stored transaction, and nothing else. */
  lemma IndexListsEveryRow(transactions: Table<Transaction>)
    requires transactions.Valid()
    ensures var r := Index(transactions);
            && (forall i :: 0 <= i < |r| ==> r[i].id in transactions.rows && r[i].record == transactions.rows[r[i].id])
            && (forall id :: id in transactions.rows ==> Row(id, transactions.rows[id]) in r)
  {
    var all := transactions.Listing();
    var r := Index(transactions);
    forall i | 0 <= i < |r|
      ensures r[i].id in transactions.rows && r[i].record == transactions.rows[r[i].id]
    {
      assert r[i] in multiset(all);
    }
    forall id | id in transactions.rows
      ensures Row(id, transactions.rows[id]) in r
    {
      var i :| 0 <= i < |all| && all[i].id == id;
      assert all[i] in multiset(r);
    }
  }

  /** The four columns read from the validated fields are those of the
      request. */
  lemma ReadsValidated(n: Request)
    ensures forall k :: k in ["name", "amount", "category", "date"] ==> Get(Validated(Rules, n), k) == Get(n, k)
  {
    ValidatedAgrees(Rules, n);
    assert Rules[0].key == "name" && Rules[1].key == "amount" && Rules[2].key == "category" && Rules[3].key == "date";
  }

  /** `store`: a request that passes the rules adds one transaction, created
      at `now`; one that fails changes nothing. */
  method Store(transactions: Table<Transaction>, req: Request, isDate: string -> bool, now: int)
    returns (resp: Response<Row<Transaction>>)
    requires transactions.Valid()
    modifies transactions
    ensures transactions.Valid()
    ensures Validate(Rules, Normalize(req), isDate).Ok? ==>
              && var t := NewTransaction(Normalize(req), now);
              && t.avatar == Some(AvatarUrl(t.name))
              && resp == Created(Row(old(transactions.nextId), t))
              && transactions.rows == old(transactions.rows)[old(transactions.nextId) := t]
    ensures Validate(Rules, Normalize(req), isDate).Err? ==>
              && resp == Unprocessable(Failures(Rules, Normalize(req), isDate))
              && transactions.rows == old(transactions.rows) && transactions.nextId == old(transactions.nextId)
  {
    var input := Normalize(req);
    var v := Validate(Rules, input, isDate);
    if v.Err? {
      return Unprocessable(v.error);
    }
    var validated := v.value;
    ReadsValidated(input);
    var name := TextOf(Get(validated, "name"));
    var avatar := AvatarPrefix + UrlEncode(Utf8(name)) + AvatarSuffix;
    var t := Transaction(name, TextOf(Get(validated, "category")), CentsOf(Get(validated, "amount")),
                         TextOf(Get(validated, "date")), Some(avatar), IsIncomeDefault, IsRecurringDefault, now);
    var id := transactions.Insert(t);
    resp := Created(Row(id, t));
  }

  /** `update`: an unknown id is not found; a request that fails the rules
      changes nothing; otherwise only that transaction is rewritten, with
      its avatar recomputed and `is_income`, `is_recurring` and `created_at`
      kept. */
  method Update(transactions: Table<Transaction>, id: nat, req: Request, isDate: string -> bool)
    returns (resp: Response<Row<Transaction>>)
    requires transactions.Valid()
    modifies transactions
    ensures transactions.Valid() && transactions.nextId == old(transactions.nextId)
    ensures id !in old(transactions.rows) ==> resp == NotFound && transactions.rows == old(transactions.rows)
    ensures id in old(transactions.rows) && Validate(Rules, Normalize(req), isDate).Err? ==>
              resp == Unprocessable(Failures(Rules, Normalize(req), isDate)) && transactions.rows == old(transactions.rows)
    ensures id in old(transactions.rows) && Validate(Rules, Normalize(req), isDate).Ok? ==>
              && var before := old(transactions.rows)[id];
              && var t := Revised(before, Normalize(req));
              && t.avatar == Some(AvatarUrl(t.name))
              && t.isIncome == before.isIncome && t.isRecurring == before.isRecurring
              && t.createdAt == before.createdAt
              && resp == Success(Row(id, t))
              && transactions.rows == old(transactions.rows)[id := t]
  {
    if id !in transactions.rows {
      return NotFound;
    }
    var input := Normalize(req);
    var v := Validate(Rules, input, isDate);
    if v.Err? {
      return Unprocessable(v.error);
    }
    var validated := v.value;
    ReadsValidated(input);
    var name := TextOf(Get(validated, "name"));
    var avatar := AvatarPrefix + UrlEncode(Utf8(name)) + AvatarSuffix;
    var t := transactions.rows[id].(name := name, category := TextOf(Get(validated, "category")),
                                    amount := CentsOf(Get(validated, "amount")),
                                    date := TextOf(Get(validated, "date")), avatar := Some(avatar));
    transactions.Replace(id, t);
    resp := Success(Row(id, t));
  }

  /** `destroy`: removes exactly the given transaction; an unknown id is not
      found and nothing changes. */
  method Destroy(transactions: Table<Transaction>, id: nat) returns (resp: Response<Row<Transaction>>)
    requires transactions.Valid()
    modifies transactions
    ensures transactions.Valid() && transactions.nextId == old(transactions.nextId)
    ensures id !in old(transactions.rows) ==> resp == NotFound && transactions.rows == old(transactions.rows)
    ensures id in old(transactions.rows) ==> resp == NoContent && transactions.rows == old(transactions.rows) - {id}
  {
    if id !in transactions.rows {
      return NotFound;
    }
    transactions.Delete(id);
    resp := NoContent;
  }
}
