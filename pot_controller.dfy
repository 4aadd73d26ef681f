/** The pots table and its controller: creation with an empty total, partial
    update, and deletion. */
module PotController {
  import opened Wrappers
  import opened Requests
  import opened Records
  import opened Tables

  const StoreRules: seq<FieldRule> := [
    FieldRule("name", Required, Text(None)),
    FieldRule("target", Required, Numeric),
    FieldRule("theme", Required, Text(None))
  ]

  const UpdateRules: seq<FieldRule> := [
    FieldRule("name", Sometimes, Text(None)),
    FieldRule("target", Sometimes, Numeric),
    FieldRule("total", Sometimes, Numeric),
    FieldRule("theme", Sometimes, Text(None))
  ]

  /** `index`: every pot once, in id order. */
  function Index(pots: Table<Pot>): (r: seq<Row<Pot>>)
    reads pots
    requires pots.Valid()
    ensures forall i :: 0 <= i < |r| ==> r[i].id in pots.rows && r[i].record == pots.rows[r[i].id]
    ensures forall id :: id in pots.rows ==> exists i :: 0 <= i < |r| && r[i].id == id
  {
    pots.Listing()
  }

  /** The pot `store` creates from an admitted request. */
  function NewPot(req: Request): Pot {
    Pot(TextOf(Get(req, "name")), CentsOf(Get(req, "target")), 0, TextOf(Get(req, "theme")))
  }

  /** `store` admits a request exactly when the client sent `name` and
      `theme` as non-blank strings and `target` as a number. */
  lemma StoreAdmission(req: Request)
    ensures Validate(StoreRules, Normalize(req), AnyDate).Ok? <==>
              FilledText(req, "name") && FilledNumber(req, "target") && FilledText(req, "theme")
  {
    StoreRulesPass(Normalize(req));
    NormalizedText(req, "name");
    NormalizedNumber(req, "target");
    NormalizedText(req, "theme");
  }

  lemma StoreRulesPass(n: Request)
    ensures Validate(StoreRules, n, AnyDate).Ok? <==>
              FilledText(n, "name") && FilledNumber(n, "target") && FilledText(n, "theme")
  {
    assert StoreRules[0].key == "name" && StoreRules[1].key == "target" && StoreRules[2].key == "theme";
  }

  /** A new pot's total is 0, whatever total the request carries. */
  lemma NewPotStartsEmpty(req: Request, total: Value)
    ensures NewPot(req).total == 0
    ensures NewPot(req["total" := total]) == NewPot(req)
  {
    assert Get(req["total" := total], "name") == Get(req, "name");
    assert Get(req["total" := total], "target") == Get(req, "target");
    assert Get(req["total" := total], "theme") == Get(req, "theme");
  }

  /** `$pot->update($validated)`: exactly the fields the request names are
      rewritten. */
  function ApplyUpdate(p: Pot, validated: Request): (r: Pot)
    ensures "name" !in validated ==> r.name == p.name
    ensures "target" !in validated ==> r.target == p.target
    ensures "total" !in validated ==> r.total == p.total
    ensures "theme" !in validated ==> r.theme == p.theme
  {
    Pot(
      if "name" in validated then TextOf(validated["name"]) else p.name,
      if "target" in validated then CentsOf(validated["target"]) else p.target,
      if "total" in validated then CentsOf(validated["total"]) else p.total,
      if "theme" in validated then TextOf(validated["theme"]) else p.theme)
  }

  /** An update naming no field leaves the pot as it was. */
  lemma EmptyUpdateKeepsPot(p: Pot)
    ensures Validate(UpdateRules, Normalize(map[]), AnyDate) == Ok(map[])
    ensures ApplyUpdate(p, map[]) == p
  {
    assert Normalize(map[]) == map[];
  }

  /** Applying the same update twice is applying it once. */
  lemma UpdateIdempotent(p: Pot, validated: Request)
    ensures ApplyUpdate(ApplyUpdate(p, validated), validated) == ApplyUpdate(p, validated)
  {
  }

  /** `update` admits a request exactly when each of `name` and `theme` it
      names is a non-blank string and each of `target` and `total` it names
      is a number. A blank field arrives as null, which `sometimes` does not
      let through. Any number is a total, below 0 or above the target
      alike. */
  lemma UpdateAdmission(req: Request)
    ensures Validate(UpdateRules, Normalize(req), AnyDate).Ok? <==>
              forall k :: k in ["name", "target", "total", "theme"] && k in req ==>
                if k in ["name", "theme"] then FilledText(req, k) else FilledNumber(req, k)
  {
    var n := Normalize(req);
    MiddlewareSettles(req);
    UpdateRulesPass(n);
    NormalizedText(req, "name");
    NormalizedNumber(req, "target");
    NormalizedNumber(req, "total");
    NormalizedText(req, "theme");
  }

  lemma UpdateRulesPass(n: Request)
    requires forall k :: k in n ==> !(n[k].Str? && IsBlank(n[k].s))
    ensures Validate(UpdateRules, n, AnyDate).Ok? <==>
              forall k :: k in ["name", "target", "total", "theme"] && k in n ==>
                if k in ["name", "theme"] then FilledText(n, k) else FilledNumber(n, k)
  {
    assert UpdateRules[0].key == "name" && UpdateRules[1].key == "target";
    assert UpdateRules[2].key == "total" && UpdateRules[3].key == "theme";
    if Validate(UpdateRules, n, AnyDate).Ok? {
      assert Passes(UpdateRules[0], n, AnyDate) && Passes(UpdateRules[1], n, AnyDate);
      assert Passes(UpdateRules[2], n, AnyDate) && Passes(UpdateRules[3], n, AnyDate);
    }
  }

  /** A blank `target` or `total` is refused by name rather than written to
      the pot. */
  lemma BlankNumberRejected(req: Request, key: string)
    requires key == "target" || key == "total"
    requires key in req && req[key].Str? && IsBlank(req[key].s)
    ensures Validate(UpdateRules, Normalize(req), AnyDate).Err?
    ensures key in Failures(UpdateRules, Normalize(req), AnyDate)
  {
    assert Normalize(req)[key] == Null;
    if key == "target" {
      assert !Passes(UpdateRules[1], Normalize(req), AnyDate);
    } else {
      assert !Passes(UpdateRules[2], Normalize(req), AnyDate);
    }
  }

  /** An admitted update writes the numbers the client sent and the
      trimmed texts, and nothing in place of a blank. */
  lemma AdmittedUpdateWritesSentValues(p: Pot, req: Request)
    requires Validate(UpdateRules, Normalize(req), AnyDate).Ok?
    ensures var r := ApplyUpdate(p, Validated(UpdateRules, Normalize(req)));
      && ("target" in req ==> req["target"].Num? && r.target == req["target"].cents)
      && ("total" in req ==> req["total"].Num? && r.total == req["total"].cents)
      && ("name" in req ==> FilledText(req, "name") && r.name == Trim(req["name"].s))
      && ("theme" in req ==> FilledText(req, "theme") && r.theme == Trim(req["theme"].s))
  {
    if "target" in req { SentNumberWritten(req, "target"); }
    if "total" in req { SentNumberWritten(req, "total"); }
    if "name" in req { SentTextWritten(req, "name"); }
    if "theme" in req { SentTextWritten(req, "theme"); }
  }

  lemma SentNumberWritten(req: Request, key: string)
    requires key == "target" || key == "total"
    requires Validate(UpdateRules, Normalize(req), AnyDate).Ok? && key in req
    ensures req[key].Num?
    ensures key in Validated(UpdateRules, Normalize(req)) && Validated(UpdateRules, Normalize(req))[key] == req[key]
  {
    var n := Normalize(req);
    var i := if key == "target" then 1 else 2;
    assert UpdateRules[i].key == key && Passes(UpdateRules[i], n, AnyDate);
    assert n[key] == NormalizeValue(req[key]);
    NormalizedNumber(req, key);
    ValidatedField(Normalize(req), key);
  }

  lemma SentTextWritten(req: Request, key: string)
    requires key == "name" || key == "theme"
    requires Validate(UpdateRules, Normalize(req), AnyDate).Ok? && key in req
    ensures FilledText(req, key)
    ensures key in Validated(UpdateRules, Normalize(req)) && Validated(UpdateRules, Normalize(req))[key] == Str(Trim(req[key].s))
  {
    UpdateAdmission(req);
    assert key in ["name", "target", "total", "theme"] && key in ["name", "theme"];
    assert FilledText(req, key);
    NormalizedText(req, key);
    ValidatedField(Normalize(req), key);
  }

  lemma ValidatedField(n: Request, key: string)
    requires key in ["name", "target", "total", "theme"] && key in n
    ensures key in Validated(UpdateRules, n) && Validated(UpdateRules, n)[key] == n[key]
  {
    assert UpdateRules[0].key == "name" && UpdateRules[1].key == "target";
    assert UpdateRules[2].key == "total" && UpdateRules[3].key == "theme";
  }

  /** Any numeric total is accepted and stored, unbounded by 0 or by the
      target. */
  lemma AnyTotalAccepted(p: Pot, cents: int)
    ensures Validate(UpdateRules, Normalize(map["total" := Num(cents)]), AnyDate).Ok?
    ensures ApplyUpdate(p, Validated(UpdateRules, Normalize(map["total" := Num(cents)]))) == p.(total := cents)
  {
    assert Normalize(map["total" := Num(cents)]) == map["total" := Num(cents)];
    UpdateAdmission(map["total" := Num(cents)]);
    assert UpdateRules[2].key == "total";
    assert Validated(UpdateRules, map["total" := Num(cents)]) == map["total" := Num(cents)];
  }

  /** The pot `store` builds from its validated fields, with the total
      forced to 0, is the new pot of the request. */
  lemma StoredPot(n: Request)
    ensures var validated := Validated(StoreRules, n)["total" := Num(0)];
      Pot(TextOf(Get(validated, "name")), CentsOf(Get(validated, "target")), CentsOf(Get(validated, "total")),
          TextOf(Get(validated, "theme"))) == NewPot(n)
  {
    ValidatedAgrees(StoreRules, n);
    assert StoreRules[0].key == "name" && StoreRules[1].key == "target" && StoreRules[2].key == "theme";
  }

  /** `store`: an admitted request adds one pot with total 0; any other
      changes nothing. */
  method Store(pots: Table<Pot>, req: Request) returns (resp: Response<Row<Pot>>)
    requires pots.Valid()
    modifies pots
    ensures pots.Valid()
    ensures Validate(StoreRules, Normalize(req), AnyDate).Ok? ==>
              && NewPot(Normalize(req)).total == 0
              && resp == Created(Row(old(pots.nextId), NewPot(Normalize(req))))
              && pots.rows == old(pots.rows)[old(pots.nextId) := NewPot(Normalize(req))]
    ensures Validate(StoreRules, Normalize(req), AnyDate).Err? ==>
              && resp == Unprocessable(Failures(StoreRules, Normalize(req), AnyDate))
              && pots.rows == old(pots.rows) && pots.nextId == old(pots.nextId)
  {
    var input := Normalize(req);
    var v := Validate(StoreRules, input, AnyDate);
    if v.Err? {
      return Unprocessable(v.error);
    }
    var validated := v.value;
    StoredPot(input);
    validated := validated["total" := Num(0)];
    var pot := Pot(TextOf(Get(validated, "name")), CentsOf(Get(validated, "target")), CentsOf(Get(validated, "total")),
                   TextOf(Get(validated, "theme")));
    var id := pots.Insert(pot);
    resp := Created(Row(id, pot));
  }

  /** `update`: an unknown id is not found; a request that fails the rules
      changes nothing; otherwise only that pot is rewritten, in exactly the
      fields the request names. */
  method Update(pots: Table<Pot>, id: nat, req: Request) returns (resp: Response<Row<Pot>>)
    requires pots.Valid()
    modifies pots
    ensures pots.Valid() && pots.nextId == old(pots.nextId)
    ensures id !in old(pots.rows) ==> resp == NotFound && pots.rows == old(pots.rows)
    ensures id in old(pots.rows) && Validate(UpdateRules, Normalize(req), AnyDate).Err? ==>
              resp == Unprocessable(Failures(UpdateRules, Normalize(req), AnyDate)) && pots.rows == old(pots.rows)
    ensures id in old(pots.rows) && Validate(UpdateRules, Normalize(req), AnyDate).Ok? ==>
              && var p := ApplyUpdate(old(pots.rows)[id], Validated(UpdateRules, Normalize(req)));
              && resp == Success(Row(id, p))
              && pots.rows == old(pots.rows)[id := p]
  {
    if id !in pots.rows {
      return NotFound;
    }
    var input := Normalize(req);
    var v := Validate(UpdateRules, input, AnyDate);
    if v.Err? {
      return Unprocessable(v.error);
    }
    var pot := ApplyUpdate(pots.rows[id], v.value);
    pots.Replace(id, pot);
    resp := Success(Row(id, pot));
  }

  /** `destroy`: removes exactly the given pot; an unknown id is not found
      and nothing changes. */
  method Destroy(pots: Table<Pot>, id: nat) returns (resp: Response<Row<Pot>>)
    requires pots.Valid()
    modifies pots
    ensures pots.Valid() && pots.nextId == old(pots.nextId)
    ensures id !in old(pots.rows) ==> resp == NotFound && pots.rows == old(pots.rows)
    ensures id in old(pots.rows) ==> resp == NoContent && pots.rows == old(pots.rows) - {id}
  {
    if id !in pots.rows {
      return NotFound;
    }
    pots.Delete(id);
    resp := NoContent;
  }
}
