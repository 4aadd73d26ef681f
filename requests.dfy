/** Request bodies, field validation as the controllers declare it, and the
    responses the controllers give back. */
module Requests {
  import opened Wrappers

  /** A JSON value of a request body. Numbers are held in cents, the
      precision of the `decimal(…, 2)` columns they end up in. */
  datatype Value = Str(s: string) | Num(cents: int) | Bool(b: bool) | Null

  /** A decoded request body: field name to value. */
  type Request = map<string, Value>

  /** The presence part of a field's rule list: `required`, `nullable`,
      `sometimes`, or none of them. */
  datatype Presence = Required | Nullable | Sometimes | Unmarked

  /** The type part of a field's rule list. */
  datatype Kind =
    | Text(maxLength: Option<nat>)      // string, optionally with max:N
    | Numeric                           // numeric
    | WholeNumber(min: int, max: int)   // integer|min:A|max:B
    | Boolean                           // boolean
    | Date                              // date
    | OneOf(allowed: seq<string>)       // in:a,b,…

  datatype FieldRule = FieldRule(key: string, presence: Presence, kind: Kind)

  /** The whitespace PHP's `trim` strips. */
  predicate IsTrimmed(c: char) {
    c == ' ' || c == '\t' || c == '\n' || c == '\r' || c == '\0' || c as int == 11
  }

  /** A string that `trim` turns into the empty string. */
  predicate IsBlank(s: string) {
    forall i :: 0 <= i < |s| ==> IsTrimmed(s[i])
  }

  /** `ltrim`: `s` without its leading whitespace. */
  function TrimStart(s: string): (r: string)
    ensures |r| <= |s| && r == s[|s| - |r|..]
    ensures forall k :: 0 <= k < |s| - |r| ==> IsTrimmed(s[k])
    ensures r != [] ==> !IsTrimmed(r[0])
  {
    if s != [] && IsTrimmed(s[0]) then TrimStart(s[1..]) else s
  }

  /** `rtrim`: `s` without its trailing whitespace. */
  function TrimEnd(s: string): (r: string)
    ensures |r| <= |s| && r == s[..|r|]
    ensures forall k :: |r| <= k < |s| ==> IsTrimmed(s[k])
    ensures r != [] ==> !IsTrimmed(r[|r| - 1])
  {
    if s != [] && IsTrimmed(s[|s| - 1]) then TrimEnd(s[..|s| - 1]) else s
  }

  /** `trim`: no whitespace at either end, and empty exactly when `s` is
      blank. */
  function Trim(s: string): (r: string)
    ensures |r| <= |s|
    ensures r == [] <==> IsBlank(s)
    ensures r != [] ==> !IsTrimmed(r[0]) && !IsTrimmed(r[|r| - 1])
  {
    TrimEmptyIffBlank(s);
    TrimEnd(TrimStart(s))
  }

  lemma TrimEmptyIffBlank(s: string)
    ensures TrimEnd(TrimStart(s)) == [] <==> IsBlank(s)
  {
    var t := TrimStart(s);
    if TrimEnd(t) == [] {
      assert |t| == 0;
    }
  }

  /** `r` is the stretch of `s` starting at `i`, with only whitespace
      around it. */
  predicate IsCore(s: string, i: int, r: string) {
    0 <= i <= |s| - |r| && r == s[i..i + |r|]
    && (forall k :: 0 <= k < i ==> IsTrimmed(s[k]))
    && (forall k :: i + |r| <= k < |s| ==> IsTrimmed(s[k]))
  }

  /** `trim` cuts whitespace only: what it keeps is one stretch of `s`, and
      everything before and after that stretch is whitespace. */
  lemma TrimCutsOnlyBlanks(s: string)
    ensures exists i :: IsCore(s, i, Trim(s))
  {
    var t := TrimStart(s);
    var r := TrimEnd(t);
    CoreOfCuts(s, t, r);
    assert Trim(s) == r;
    assert IsCore(s, |s| - |t|, Trim(s));
  }

  /** Cutting a blank prefix and then a blank suffix leaves a core. */
  lemma CoreOfCuts(s: string, t: string, r: string)
    requires |t| <= |s| && t == s[|s| - |t|..] && forall k :: 0 <= k < |s| - |t| ==> IsTrimmed(s[k])
    requires |r| <= |t| && r == t[..|r|] && forall k :: |r| <= k < |t| ==> IsTrimmed(t[k])
    ensures IsCore(s, |s| - |t|, r)
  {
    var i := |s| - |t|;
    assert r == s[i..i + |r|];
    forall k | i + |r| <= k < |s| ensures IsTrimmed(s[k]) {
      assert s[k] == t[k - i];
    }
  }

  /** Trimming twice is trimming once. */
  lemma TrimIdempotent(s: string)
    ensures Trim(Trim(s)) == Trim(s)
  {
    var r := Trim(s);
    if r != [] {
      assert TrimStart(r) == r;
      assert TrimEnd(r) == r;
    }
  }

  /** One value after Laravel's global `TrimStrings` and
      `ConvertEmptyStringsToNull` middleware: strings are trimmed, and a
      string that trims to empty becomes null. */
  function NormalizeValue(v: Value): (r: Value)
    ensures v.Str? && IsBlank(v.s) ==> r == Null
    ensures v.Str? && !IsBlank(v.s) ==> r == Str(Trim(v.s)) && !IsBlank(r.s)
    ensures !v.Str? ==> r == v
  {
    if v.Str? then (if Trim(v.s) == [] then Null else Str(Trim(v.s))) else v
  }

  /** The request as the controllers receive it, after the middleware. */
  function Normalize(req: Request): (r: Request)
    ensures forall k :: k in r <==> k in req
  {
    map k | k in req :: NormalizeValue(req[k])
  }

  /** After the middleware no field is a blank string, and running it a
      second time changes nothing. */
  lemma MiddlewareSettles(req: Request)
    ensures forall k :: k in Normalize(req) ==> !(Normalize(req)[k].Str? && IsBlank(Normalize(req)[k].s))
    ensures Normalize(Normalize(req)) == Normalize(req)
  {
    var n := Normalize(req);
    forall k | k in n
      ensures NormalizeValue(n[k]) == n[k]
    {
      if req[k].Str? && !IsBlank(req[k].s) {
        TrimIdempotent(req[k].s);
      }
    }
  }

  /** A field passes `required|string` after the middleware exactly when the
      client sent a non-blank string, which arrives trimmed. */
  lemma NormalizedText(req: Request, key: string)
    ensures FilledText(Normalize(req), key) <==> FilledText(req, key)
    ensures FilledText(req, key) ==> Normalize(req)[key] == Str(Trim(req[key].s))
  {
  }

  /** A field passes `required|numeric` after the middleware exactly when
      the client sent a number, which arrives unchanged. */
  lemma NormalizedNumber(req: Request, key: string)
    ensures FilledNumber(Normalize(req), key) <==> FilledNumber(req, key)
    ensures FilledNumber(req, key) ==> Normalize(req)[key] == req[key]
  {
  }

  /** Numbers, booleans and null pass the middleware unchanged. */
  lemma NormalizedNonText(req: Request, key: string)
    requires key in req && !req[key].Str?
    ensures Normalize(req)[key] == req[key]
  {
  }

  /** A string of a form `date` accepts; date parsing is not modelled, so
      the verdict of the parser is a parameter. */
  predicate KindAccepts(kind: Kind, v: Value, isDate: string -> bool) {
    match kind
    case Text(maxLength) => v.Str? && (maxLength.Some? ==> |v.s| <= maxLength.value)
    case Numeric => v.Num?
    case WholeNumber(lo, hi) => v.Num? && v.cents % 100 == 0 && lo <= v.cents / 100 <= hi
    case Boolean => v == Bool(true) || v == Bool(false) || v == Num(0) || v == Num(100)
                    || v == Str("0") || v == Str("1")
    case Date => v.Str? && isDate(v.s)
    case OneOf(allowed) => v.Str? && v.s in allowed
  }

  /** Whether one field passes its rule. An absent field fails only when it
      is required. A null passes only a nullable field. A blank string fails
      a required field and skips every other rule. Anything else must be of
      the declared kind. */
  predicate Passes(rule: FieldRule, req: Request, isDate: string -> bool) {
    if rule.key !in req then rule.presence != Required
    else
      var v := req[rule.key];
      if v.Null? then rule.presence == Nullable
      else if v.Str? && IsBlank(v.s) then rule.presence != Required
      else KindAccepts(rule.kind, v, isDate)
  }

  /** The names of the fields that fail their rules. */
  function Failures(rules: seq<FieldRule>, req: Request, isDate: string -> bool): (r: set<string>)
    ensures forall k :: k in r <==> exists i :: 0 <= i < |rules| && rules[i].key == k && !Passes(rules[i], req, isDate)
    ensures r == {} <==> forall i :: 0 <= i < |rules| ==> Passes(rules[i], req, isDate)
  {
    var failed := set i | 0 <= i < |rules| && !Passes(rules[i], req, isDate) :: rules[i].key;
    assert forall i :: 0 <= i < |rules| && !Passes(rules[i], req, isDate) ==> rules[i].key in failed;
    failed
  }

  /** The fields named by some rule, as given in the request: what
      `validate` hands back when nothing fails. */
  function Validated(rules: seq<FieldRule>, req: Request): (r: Request)
    ensures forall k :: k in r <==> k in req && exists i :: 0 <= i < |rules| && rules[i].key == k
    ensures forall k :: k in r ==> r[k] == req[k]
  {
    map k | k in req && exists i :: 0 <= i < |rules| && rules[i].key == k :: req[k]
  }

  /** Every field a rule names reads the same in the validated request as
      in the request, present or absent alike. */
  lemma ValidatedAgrees(rules: seq<FieldRule>, req: Request)
    ensures forall i :: 0 <= i < |rules| ==>
              && (rules[i].key in Validated(rules, req) <==> rules[i].key in req)
              && Get(Validated(rules, req), rules[i].key) == Get(req, rules[i].key)
  {
    forall i | 0 <= i < |rules|
      ensures rules[i].key in Validated(rules, req) <==> rules[i].key in req
    {
      if rules[i].key in req {
        assert exists j :: 0 <= j < |rules| && rules[j].key == rules[i].key;
      }
    }
  }

  /** Mass assignment is limited to the rules' fields: a field no rule
      names, whatever its value, changes neither the verdict nor the
      validated fields. */
  lemma ValidatedIgnoresUnnamed(rules: seq<FieldRule>, req: Request, key: string, v: Value, isDate: string -> bool)
    requires forall i :: 0 <= i < |rules| ==> rules[i].key != key
    ensures Validated(rules, req[key := v]) == Validated(rules, req)
    ensures Failures(rules, req[key := v], isDate) == Failures(rules, req, isDate)
  {
    forall i | 0 <= i < |rules|
      ensures Passes(rules[i], req[key := v], isDate) == Passes(rules[i], req, isDate)
    {
      assert rules[i].key != key;
    }
  }

  /** `$request->validate($rules)`: the validated fields, or the set of
      fields that failed. */
  function Validate(rules: seq<FieldRule>, req: Request, isDate: string -> bool): (r: Result<Request, set<string>>)
    ensures r.Ok? <==> forall i :: 0 <= i < |rules| ==> Passes(rules[i], req, isDate)
    ensures r.Err? ==> r.error != {}
    ensures r.Ok? ==> r.value == Validated(rules, req)
  {
    var failed := Failures(rules, req, isDate);
    if failed == {} then Ok(Validated(rules, req))
    else Err(failed)
  }

  /** Five rules pass together exactly when each of them passes. */
  lemma AllOfFive(rules: seq<FieldRule>, req: Request, isDate: string -> bool)
    requires |rules| == 5
    ensures (forall i :: 0 <= i < |rules| ==> Passes(rules[i], req, isDate)) <==>
              && Passes(rules[0], req, isDate) && Passes(rules[1], req, isDate) && Passes(rules[2], req, isDate)
              && Passes(rules[3], req, isDate) && Passes(rules[4], req, isDate)
  {
  }

  /** A value that passes `required|string`. */
  predicate FilledText(req: Request, key: string) {
    key in req && req[key].Str? && !IsBlank(req[key].s)
  }

  /** A value that passes `required|numeric`. */
  predicate FilledNumber(req: Request, key: string) {
    key in req && req[key].Num?
  }

  /** A field's value; an absent field reads as null, as `$validated[$key]`
      is never read for a field the rules did not admit. */
  function Get(req: Request, key: string): (r: Value)
    ensures key in req ==> r == req[key]
  {
    if key in req then req[key] else Null
  }

  /** The text of a field known to be a string. */
  function TextOf(v: Value): string {
    if v.Str? then v.s else ""
  }

  /** The amount of a field known to be a number. */
  function CentsOf(v: Value): int {
    if v.Num? then v.cents else 0
  }

  /** A rule that never reads the date parser: every kind but `date`. */
  const AnyDate: string -> bool := (s: string) => true

  /** A controller's answer. */
  datatype Response<T> =
    | Created(record: T)                // 201 with the new record
    | Success(record: T)                // 200 with the record
    | NoContent                         // 204
    | Message(text: string)             // 200 with {message: text}
    | NotFound                          // 404 from findOrFail
    | Unprocessable(fields: set<string>)  // 422 with the failing fields
  {
    function Status(): int {
      match this
      case Created(_) => 201
      case Success(_) => 200
      case NoContent => 204
      case Message(_) => 200
      case NotFound => 404
      case Unprocessable(_) => 422
    }
  }
}
