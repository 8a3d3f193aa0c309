// Event payloads as the stream delivers them, and their conversion to graph objects: which of the
// dynamically typed fields are read, how they are tested, and where the conversion raises.
// Sources: ml-service/graphsage/passive_ingestion.py, ml-service/graphsage/schema.py,
// ml-service/graphsage/shadow_telemetry.py, ml-service/graphsage/label_maturation.py

module Payloads {
  import opened Common

  // a value of a decoded message; NonFinite stands for the infinities and not-a-number
  datatype Value = Null | Truth(b: bool) | Integer(i: int) | Float(x: real) | NonFinite
                 | Text(s: string) | Items(elems: seq<Value>) | Fields(fields: map<string, Value>)

  // instants with and without a time zone cannot be compared
  datatype Stamp = Stamp(t: int, aware: bool)

  // `quarantined` stands for the sanitizer's verdict; a payload it does not quarantine passes unchanged
  datatype Body = Body(topic: string, payload: map<string, Value>, quarantined: bool, at: Stamp)

  const AUDIT := "audit.events"
  const CREATED := "transactions.created"

  function Get(p: map<string, Value>, key: string): Value {
    if key in p then p[key] else Null
  }

  function GetOr(p: map<string, Value>, key: string, default: Value): Value {
    if key in p then p[key] else default
  }

  predicate Truthy(v: Value) {
    match v
    case Null => false
    case Truth(b) => b
    case Integer(i) => i != 0
    case Float(x) => x != 0.0
    case NonFinite => true
    case Text(s) => s != ""
    case Items(elems) => elems != []
    case Fields(fields) => fields != map[]
  }

  // the word is in the value; None where the test raises
  function In(word: string, v: Value): Option<bool> {
    match v
    case Text(s) => Some(Contains(s, word))
    case Items(elems) => Some(Text(word) in elems)
    case Fields(fields) => Some(word in fields)
    case _ => None
  }

  lemma {:induction false} FalsyIff(v: Value)
    ensures !Truthy(v) <==>
            v in {Null, Truth(false), Integer(0), Float(0.0), Text(""), Items([]), Fields(map[])}
  {
  }

  // ---------------------------------------------------------------------------
  // Conversion to a float
  // ---------------------------------------------------------------------------

  const BLANKS: set<char> := {' ', '\t', '\n', '\r', '\U{0B}', '\U{0C}', '\U{1C}', '\U{1D}', '\U{1E}', '\U{1F}'}

  function Stripped(s: string): string {
    if s != "" && s[0] in BLANKS then Stripped(s[1..])
    else if s != "" && s[|s| - 1] in BLANKS then Stripped(s[..|s| - 1])
    else s
  }

  function Unsigned(s: string): string {
    if s != "" && (s[0] == '+' || s[0] == '-') then s[1..] else s
  }

  // the first position of one of the characters, or the length
  function Find(s: string, chars: set<char>): (k: nat)
    ensures k <= |s|
    ensures k < |s| ==> s[k] in chars
    ensures forall i :: 0 <= i < k ==> s[i] !in chars
  {
    if s == "" || s[0] in chars then 0 else 1 + Find(s[1..], chars)
  }

  predicate IsDigit(c: char) {
    '0' <= c <= '9'
  }

  // digits, with single underscores between two of them
  predicate Digits(s: string) {
    && s != ""
    && (forall i :: 0 <= i < |s| ==> IsDigit(s[i]) || s[i] == '_')
    && (forall i :: 0 <= i < |s| && s[i] == '_' ==> 0 < i < |s| - 1 && IsDigit(s[i - 1]) && IsDigit(s[i + 1]))
  }

  predicate Mantissa(s: string) {
    var dot := Find(s, {'.'});
    if dot == |s| then Digits(s)
    else
      var whole, part := s[..dot], s[dot + 1..];
      (whole == "" || Digits(whole)) && (part == "" || Digits(part)) && (whole != "" || part != "")
  }

  predicate Decimal(s: string) {
    var e := Find(s, {'e', 'E'});
    Mantissa(s[..e]) && (e == |s| || Digits(Unsigned(s[e + 1..])))
  }

  function Lower(s: string): string {
    seq(|s|, i requires 0 <= i < |s| => if 'A' <= s[i] <= 'Z' then s[i] + 32 as char else s[i])
  }

  // the texts that float() accepts
  predicate FloatText(s: string) {
    var u := Unsigned(Stripped(s));
    Lower(u) in {"inf", "infinity", "nan"} || Decimal(u)
  }

  // 2 to the 1024th less 2 to the 970th: the least integer that float() finds too large
  const TOO_LARGE: int :=
    0xFFFFFFFFFFFFFC00000000000000000000000000000000000000000000000000000000000000000000000000000000000000000000000000000000000000000000000000000000000000000000000000000000000000000000000000000000000000000000000000000000000000000000000000000000000000000000000000

  predicate FloatAccepts(v: Value) {
    match v
    case Truth(_) => true
    case Integer(i) => -TOO_LARGE < i < TOO_LARGE
    case Float(_) => true
    case NonFinite => true
    case Text(s) => FloatText(s)
    case _ => false
  }

  // ---------------------------------------------------------------------------
  // Conversion to graph objects
  // ---------------------------------------------------------------------------

  // the amount is kept as delivered, after it was found convertible
  datatype Item = Access(source: string, target: string, kind: string, at: Stamp)
                | Transaction(id: Value, account: Value, amount: Value, currency: Value, at: Stamp)

  datatype Conversion = Fails | Adds(items: seq<Item>)

  function EdgeKind(action: Value): Option<string> {
    match In("APPROVE", action)
    case None => None
    case Some(approves) =>
      if approves then Some("EMPLOYEE_APPROVES_TRANSACTION")
      else if In("REVIEW", action) == Some(true) then Some("EMPLOYEE_REVIEWS_CASE")
      else Some("EMPLOYEE_ACCESSES_ACCOUNT")
  }

  // an edge's ends are validated to be texts
  function ConvertAccess(b: Body): Conversion {
    var emp, acct := Get(b.payload, "employee_id"), Get(b.payload, "account_id");
    if !Truthy(emp) || !Truthy(acct) then Adds([])
    else
      match EdgeKind(GetOr(b.payload, "action", Text("ACCESS")))
      case None => Fails
      case Some(kind) => if emp.Text? && acct.Text? then Adds([Access(emp.s, acct.s, kind, b.at)]) else Fails
  }

  // the amount is converted before the ids are looked at
  function ConvertTransaction(b: Body): Conversion {
    var txn, acct := Get(b.payload, "transaction_id"), Get(b.payload, "account_id");
    var amount := GetOr(b.payload, "amount", Float(0.0));
    if !FloatAccepts(amount) then Fails
    else if !Truthy(txn) || !Truthy(acct) then Adds([])
    else Adds([Transaction(txn, acct, amount, GetOr(b.payload, "currency", Text("USD")), b.at)])
  }

  function Convert(b: Body): Conversion {
    if b.topic == AUDIT then ConvertAccess(b)
    else if b.topic == CREATED then ConvertTransaction(b)
    else Adds([])
  }

  // the value is a text, a list or a set of fields, and the word is in it
  predicate Mentions(v: Value, word: string) {
    || (v.Text? && Contains(v.s, word))
    || (v.Items? && Text(word) in v.elems)
    || (v.Fields? && word in v.fields)
  }

  // The edge of an audit event: from the employee to the account, stamped by the event, and an approval
  // when the action mentions one, else a review when it mentions one, else an access.
  lemma {:induction false} AccessExact(b: Body)
    requires b.topic == "audit.events" && Convert(b).Adds? && Convert(b).items != []
    ensures exists emp, acct, kind ::
              && Convert(b).items == [Access(emp, acct, kind, b.at)]
              && "employee_id" in b.payload && b.payload["employee_id"] == Text(emp) && emp != ""
              && "account_id" in b.payload && b.payload["account_id"] == Text(acct) && acct != ""
              && var action := if "action" in b.payload then b.payload["action"] else Text("");
                 kind == if Mentions(action, "APPROVE") then "EMPLOYEE_APPROVES_TRANSACTION"
                         else if Mentions(action, "REVIEW") then "EMPLOYEE_REVIEWS_CASE"
                         else "EMPLOYEE_ACCESSES_ACCOUNT"
  {
    assert !Contains("ACCESS", "APPROVE") && !Contains("ACCESS", "REVIEW") by {
      PlainAccess();
    }
    var item := Convert(b).items[0];
    assert item == Access(item.source, item.target, item.kind, b.at);
  }

  lemma {:induction false} PlainAccess()
    ensures !Contains("ACCESS", "APPROVE") && !Contains("ACCESS", "REVIEW")
  {
    var s := "ACCESS";
    forall i | 0 <= i <= 0 ensures !("REVIEW" <= s[i..]) {
      assert s[i..][0] == 'A';
    }
  }

  // The record of a created transaction: its fields as delivered, an absent amount 0 and an absent
  // currency US dollars, stamped by the event.
  lemma {:induction false} TransactionExact(b: Body)
    requires b.topic == "transactions.created" && Convert(b).Adds? && Convert(b).items != []
    ensures && "transaction_id" in b.payload && Truthy(b.payload["transaction_id"])
            && "account_id" in b.payload && Truthy(b.payload["account_id"])
            && Convert(b).items == [Transaction(
                 b.payload["transaction_id"], b.payload["account_id"],
                 if "amount" in b.payload then b.payload["amount"] else Float(0.0),
                 if "currency" in b.payload then b.payload["currency"] else Text("USD"), b.at)]
  {
  }

  // Of what converts, nothing is stored exactly for other topics and where an end or an id is missing or falsy.
  lemma {:induction false} NothingStoredIff(b: Body)
    requires Convert(b).Adds?
    ensures Convert(b).items == [] <==>
            var key := if b.topic == "audit.events" then "employee_id" else "transaction_id";
            || b.topic !in {"audit.events", "transactions.created"}
            || !NonEmpty(b.payload, key) || !NonEmpty(b.payload, "account_id")
  {
  }

  // ---------------------------------------------------------------------------
  // What follows an ingested event
  // ---------------------------------------------------------------------------

  // the calls that the collusion tracker and the label engine receive
  datatype FollowUp = Nothing | Raise
                    | Track(source: string, target: string, at: Stamp) | Register(id: string, at: Stamp)

  function Follow(b: Body): FollowUp {
    if b.topic == AUDIT then
      var emp, acct := Get(b.payload, "employee_id"), Get(b.payload, "account_id");
      if !Truthy(emp) || !Truthy(acct) then Nothing
      else if emp.Text? && acct.Text? then Track(emp.s, acct.s, b.at) else Raise
    else if b.topic == CREATED then
      var txn := Get(b.payload, "transaction_id");
      if !Truthy(txn) then Nothing else if txn.Text? then Register(txn.s, b.at) else Raise
    else Nothing
  }

  // ---------------------------------------------------------------------------
  // The schema that the code relies on
  // ---------------------------------------------------------------------------

  // absent, empty or a text
  predicate TextOrFalsy(p: map<string, Value>, key: string) {
    key in p ==> p[key].Text? || !Truthy(p[key])
  }

  predicate NonEmpty(p: map<string, Value>, key: string) {
    key in p && Truthy(p[key])
  }

  // an audit event naming both ends names them by texts, and its action can be searched
  predicate AuditSchema(p: map<string, Value>) {
    NonEmpty(p, "employee_id") && NonEmpty(p, "account_id") ==>
      && p["employee_id"].Text? && p["account_id"].Text?
      && ("action" in p ==> p["action"].Text? || p["action"].Items? || p["action"].Fields?)
  }

  predicate AmountSchema(p: map<string, Value>) {
    "amount" in p ==> FloatAccepts(p["amount"])
  }

  // what the conversion needs, and what registration needs beyond it
  predicate ConversionSchema(b: Body) {
    && (b.topic == AUDIT ==> AuditSchema(b.payload))
    && (b.topic == CREATED ==> AmountSchema(b.payload))
  }

  predicate RegistrationSchema(b: Body) {
    b.topic == CREATED ==> TextOrFalsy(b.payload, "transaction_id")
  }

  lemma {:induction false} ConversionFailsIff(b: Body)
    ensures Convert(b).Fails? <==> !ConversionSchema(b)
  {
  }

  // Once converted, an event raises in what follows exactly on a transaction id that is neither empty nor
  // a text: access edges have been validated already.
  lemma {:induction false} FollowUpRaisesIff(b: Body)
    requires !Convert(b).Fails?
    ensures Follow(b).Raise? <==> !RegistrationSchema(b)
  {
  }

  // what follows agrees with what was stored
  lemma {:induction false} FollowUpMatchesItems(b: Body)
    requires !Convert(b).Fails?
    ensures Follow(b).Track? <==> Convert(b).items != [] && Convert(b).items[0].Access?
    ensures Follow(b).Track? ==> var i := Convert(b).items[0]; Follow(b) == Track(i.source, i.target, i.at)
    ensures Convert(b).items != [] && Convert(b).items[0].Transaction? ==> Follow(b).Register? || Follow(b).Raise?
  {
  }

  // a registration is of the text under the transaction id, at the event's stamp
  lemma {:induction false} RegisterIff(b: Body, id: string, at: Stamp)
    ensures Follow(b) == Register(id, at) <==>
            && b.topic == "transactions.created" && at == b.at && id != ""
            && "transaction_id" in b.payload && b.payload["transaction_id"] == Text(id)
  {
  }

  // ---------------------------------------------------------------------------
  // Which texts are numbers
  // ---------------------------------------------------------------------------

  lemma {:induction false} DigitsHaveNoMark(s: string, chars: set<char>)
    requires Digits(s) && chars <= {'.', 'e', 'E'}
    ensures Find(s, chars) == |s|
  {
  }

  lemma {:induction false} FindAfter(s: string, rest: string, chars: set<char>)
    requires Find(s, chars) == |s|
    ensures Find(s + rest, chars) == |s| + Find(rest, chars)
  {
    if s == "" {
      assert s + rest == rest;
    } else {
      assert (s + rest)[1..] == s[1..] + rest;
      FindAfter(s[1..], rest, chars);
    }
  }

  predicate Signed(s: string, digits: string) {
    Digits(digits) && (s == digits || s == "+" + digits || s == "-" + digits)
  }

  lemma {:induction false} PointMakesMantissa(whole: string, part: string)
    requires Digits(whole) && Digits(part)
    ensures var m := whole + "." + part; Mantissa(m) && Find(m, {'e', 'E'}) == |m|
  {
    var m, tail := whole + "." + part, "." + part;
    assert m == whole + tail;
    DigitsHaveNoMark(whole, {'.'});
    DigitsHaveNoMark(whole, {'e', 'E'});
    DigitsHaveNoMark(part, {'e', 'E'});
    FindAfter(whole, tail, {'.'});
    FindAfter(whole, tail, {'e', 'E'});
    assert m[..|whole|] == whole && m[|whole| + 1..] == part;
    assert tail[1..] == part;
  }

  lemma {:induction false} WholeIsMantissa(whole: string)
    requires Digits(whole)
    ensures Mantissa(whole) && Find(whole, {'e', 'E'}) == |whole|
  {
    DigitsHaveNoMark(whole, {'.'});
    DigitsHaveNoMark(whole, {'e', 'E'});
  }

  lemma {:induction false} ExponentMakesDecimal(m: string, exponent: string, digits: string)
    requires Mantissa(m) && Find(m, {'e', 'E'}) == |m| && Signed(exponent, digits)
    ensures Decimal(m) && Decimal(m + "e" + exponent)
  {
    var full, tail := m + "e" + exponent, "e" + exponent;
    assert full == m + tail;
    FindAfter(m, tail, {'e', 'E'});
    assert full[..|m|] == m && full[|m| + 1..] == exponent && m[..|m|] == m;
    assert Unsigned(exponent) == digits;
  }

  // Digits, digits with a point between them, and either with a signed exponent after them are decimals.
  lemma {:induction false} DecimalTexts(whole: string, part: string, exponent: string, digits: string)
    requires Digits(whole) && Digits(part) && Signed(exponent, digits)
    ensures Decimal(whole) && Decimal(whole + "e" + exponent)
    ensures Decimal(whole + "." + part) && Decimal(whole + "." + part + "e" + exponent)
  {
    WholeIsMantissa(whole);
    PointMakesMantissa(whole, part);
    ExponentMakesDecimal(whole, exponent, digits);
    ExponentMakesDecimal(whole + "." + part, exponent, digits);
  }

  // a float needs a digit, or is one of the three words in some case
  lemma {:induction false} FloatNeedsDigit(s: string)
    requires FloatText(s) && Lower(Unsigned(Stripped(s))) !in {"inf", "infinity", "nan"}
    ensures exists i :: 0 <= i < |s| && IsDigit(s[i])
  {
    var u := Unsigned(Stripped(s));
    StrippedIsInside(s);
    var m := u[..Find(u, {'e', 'E'})];
    var dot := Find(m, {'.'});
    var d := if dot == |m| then m else if m[..dot] != "" then m[..dot] else m[dot + 1..];
    assert Digits(d) && IsDigit(d[0]) && d[0] in u;
    assert d[0] in Stripped(s);
  }

  lemma {:induction false} StrippedIsInside(s: string)
    ensures forall c :: c in Stripped(s) ==> c in s
  {
    if s != "" && s[0] in BLANKS {
      StrippedIsInside(s[1..]);
    } else if s != "" && s[|s| - 1] in BLANKS {
      StrippedIsInside(s[..|s| - 1]);
    }
  }

  // ---------------------------------------------------------------------------
  // Payloads that raise
  // ---------------------------------------------------------------------------

  lemma {:induction false} AbcIsNoFloat()
    ensures !FloatText("abc")
  {
    var u := "abc";
    assert Stripped(u) == u;
    assert Lower(u)[0] == 'a';
    assert Find(u, {'e', 'E'}) == 3;
    assert u[..3] == u;
    assert Find(u, {'.'}) == 3;
    assert !IsDigit(u[0]);
  }

  function TextAmount(at: Stamp): Body {
    Body(CREATED, map["transaction_id" := Text("txn_1"), "account_id" := Text("acct_1"), "amount" := Text("abc")],
         false, at)
  }

  function NumericId(at: Stamp): Body {
    Body(CREATED, map["transaction_id" := Integer(12345), "account_id" := Text("acct_1"), "amount" := Integer(10)],
         false, at)
  }

  lemma {:induction false} TextAmountFails(at: Stamp)
    ensures !ConversionSchema(TextAmount(at)) && Convert(TextAmount(at)) == Fails
  {
    AbcIsNoFloat();
  }

  // converts, is stored and counted, and raises afterwards
  lemma {:induction false} NumericIdRaisesLate(at: Stamp)
    ensures ConversionSchema(NumericId(at)) && Convert(NumericId(at)).items != []
    ensures !RegistrationSchema(NumericId(at)) && Follow(NumericId(at)) == Raise
  {
  }
}
