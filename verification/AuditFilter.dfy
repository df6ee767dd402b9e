/**
  The audit log's filter: parsed from the query string, compiled to a WHERE text with positional
  arguments, and printed back into links.
*/
module AuditFilter {
  import opened Common
  import opened Strings
  import opened Strconv
  import opened Timestamps
  import opened Sql

  const NONE_VALUE := "__none__"
  const OP_NOT := "not"

  datatype Filter = Filter(
    from: string, to: string, email: string, emailOp: string, ip: string, ipOp: string,
    details: string, detailsOp: string,
    events: seq<string>, methods: seq<string>, services: seq<string>, ok: seq<string>)

  // ---- what a filter means ------------------------------------------------------------------------

  predicate SinceOk(from: string, day: Day) {
    match ParseDay(from)
    case None => true
    case Some(d) => DayLe(d, day)
  }

  predicate UntilOk(to: string, day: Day) {
    match ParseDay(to)
    case None => true
    case Some(d) => DayLe(day, d)
  }

  /** One chosen value against a column: the sentinel stands for rows without a value. */
  predicate Picks(choice: string, v: Option<string>) {
    if choice == "__none__" then v.None? else v == Some(choice)
  }

  /** No choice, or one of the choices; blank choices do not count. */
  predicate ChosenOk(values: seq<string>, v: Option<string>) {
    || (forall w :: w in values ==> Trim(w) == "")
    || (exists w :: w in values && Trim(w) != "" && Picks(Trim(w), v))
  }

  /** No text, or the text is in the column, or with "not" is not in it: a missing value contains nothing. */
  ghost predicate SearchOk(text: string, op: string, v: Option<string>) {
    text == "" || (op == "not" <==> !(v.Some? && Contains(v.value, text)))
  }

  predicate OutcomeOk(values: seq<string>, success: int) {
    || (forall w :: w in values ==> ParseInt(Trim(w)).None?)
    || (exists w :: w in values && ParseInt(Trim(w)) == Some(success))
  }

  ghost predicate Accepts(f: Filter, row: AuditRow) {
    && SinceOk(f.from, row.at.day) && UntilOk(f.to, row.at.day)
    && ChosenOk(f.events, Some(row.eventType))
    && ChosenOk(f.methods, row.authMethod)
    && ChosenOk(f.services, row.serviceId)
    && SearchOk(f.email, f.emailOp, row.email)
    && SearchOk(f.ip, f.ipOp, row.ipAddress)
    && SearchOk(f.details, f.detailsOp, row.details)
    && OutcomeOk(f.ok, row.success)
  }

  // ---- the clauses --------------------------------------------------------------------------------

  function Clean(values: seq<string>): seq<string> {
    if values == [] then []
    else (if Trim(values[0]) == "" then [] else [Trim(values[0])]) + Clean(values[1..])
  }

  function Named(choices: seq<string>): seq<Value> {
    if choices == [] then []
    else (if choices[0] == NONE_VALUE then [] else [Text(choices[0])]) + Named(choices[1..])
  }

  function Numbers(choices: seq<string>): seq<Value> {
    if choices == [] then []
    else
      match ParseInt(choices[0])
      case None => Numbers(choices[1..])
      case Some(n) => [Number(n)] + Numbers(choices[1..])
  }

  /** n parameters with commas between them. */
  function Placeholders(n: nat): seq<Token> {
    if n == 0 then [] else if n == 1 then [Mark] else [Mark, Comma] + Placeholders(n - 1)
  }

  /** One clause and its arguments. */
  datatype Part = Part(text: seq<Token>, args: seq<Value>)

  function SincePart(from: string): seq<Part> {
    match ParseDay(from)
    case None => []
    case Some(d) => [Part([Name(CreatedAt), GreaterEq, Mark], [Text(FormatDay(d) + "T00:00:00Z")])]
  }

  function UntilPart(to: string): seq<Part> {
    match ParseDay(to)
    case None => []
    case Some(d) => [Part([Name(CreatedAt), LessEq, Mark], [Text(FormatDay(d) + "T23:59:59Z")])]
  }

  function InList(column: Column, n: nat): seq<Token> {
    [Name(column), InWord, Open] + Placeholders(n) + [Close]
  }

  function ChoiceText(column: Column, choices: seq<string>): seq<Token> {
    var n := |Named(choices)|;
    if n == 0 then [Name(column), IsWord, NullWord]
    else if NONE_VALUE in choices then [Open] + InList(column, n) + [OrWord, Name(column), IsWord, NullWord, Close]
    else InList(column, n)
  }

  function ChoicePart(column: Column, values: seq<string>): seq<Part> {
    var choices := Clean(values);
    if choices == [] then [] else [Part(ChoiceText(column, choices), Named(choices))]
  }

  function LikeText(column: Column, op: string): seq<Token> {
    if op == OP_NOT then
      [Open, Name(column), IsWord, NullWord, OrWord,
       Name(column), NotWord, LikeWord, Mark, EscapeWord, Literal("\\"), Close]
    else [Name(column), LikeWord, Mark, EscapeWord, Literal("\\")]
  }

  function SearchPart(column: Column, text: string, op: string): seq<Part> {
    if text == "" then [] else [Part(LikeText(column, op), [Text("%" + EscapeLike(text) + "%")])]
  }

  function OutcomePart(values: seq<string>): seq<Part> {
    var numbers := Numbers(Clean(values));
    if numbers == [] then [] else [Part(InList(Success, |numbers|), numbers)]
  }

  function DateParts(f: Filter): seq<Part> {
    SincePart(f.from) + UntilPart(f.to)
  }

  /** The columns filtered by choice and by text, in the order of the clauses. */
  datatype Choice = Choice(column: Column, values: seq<string>)

  datatype Search = Search(column: Column, text: string, op: string)

  function Choices(f: Filter): seq<Choice> {
    [Choice(EventType, f.events), Choice(AuthMethod, f.methods), Choice(ServiceId, f.services)]
  }

  function Searches(f: Filter): seq<Search> {
    [Search(Email, f.email, f.emailOp), Search(IpAddress, f.ip, f.ipOp), Search(Details, f.details, f.detailsOp)]
  }

  function ChoiceParts(choices: seq<Choice>): seq<Part> {
    if choices == [] then [] else ChoicePart(choices[0].column, choices[0].values) + ChoiceParts(choices[1..])
  }

  function SearchParts(searches: seq<Search>): seq<Part> {
    if searches == [] then []
    else SearchPart(searches[0].column, searches[0].text, searches[0].op) + SearchParts(searches[1..])
  }

  /** auditClauses: one clause for each active filter, in a fixed order. */
  function Parts(f: Filter): seq<Part> {
    DateParts(f) + (ChoiceParts(Choices(f)) + (SearchParts(Searches(f)) + OutcomePart(f.ok)))
  }

  function Texts(parts: seq<Part>): seq<seq<Token>> {
    if parts == [] then [] else [parts[0].text] + Texts(parts[1..])
  }

  function Args(parts: seq<Part>): seq<Value> {
    if parts == [] then [] else parts[0].args + Args(parts[1..])
  }

  /** strings.Join with " AND ". */
  function JoinAnd(texts: seq<seq<Token>>): seq<Token> {
    if texts == [] then [] else if |texts| == 1 then texts[0] else texts[0] + [AndWord] + JoinAnd(texts[1..])
  }

  /** The query without a WHERE returns every row. */
  predicate QuerySelects(where: seq<Token>, args: seq<Value>, row: AuditRow) {
    where == [] || Selects(where, args, row)
  }

  // ---- each clause means its filter ---------------------------------------------------------------

  /** Where the arguments of a clause stand among all arguments. */
  predicate StandAt(args: seq<Value>, all: seq<Value>, n: nat) {
    n + |args| <= |all| && all[n..n + |args|] == args
  }

  /**
    A clause parses as a unit in front of anything, takes as many parameters as it has arguments, and
    is true on exactly the rows that meet the condition.
  */
  ghost predicate Means(part: Part, row: AuditRow, condition: bool) {
    forall rest: seq<Token>, n: nat ::
      var p := ParsePrimary(part.text + rest, n);
      && p.Parsed? && p.rest == rest && p.next == n + |part.args|
      && forall all: seq<Value> :: StandAt(part.args, all, n) ==> (Eval(p.expr, all, row) == True <==> condition)
  }

  /** The clauses for one filter field: none, when the field does not restrict anything. */
  ghost predicate MeansAll(parts: seq<Part>, row: AuditRow, condition: bool) {
    && (parts == [] ==> condition)
    && |parts| <= 1
    && (|parts| == 1 ==> Means(parts[0], row, condition))
  }

  lemma MeansBy(part: Part, row: AuditRow, condition: bool, expr: nat -> Expr)
    requires forall rest: seq<Token>, n: nat ::
      ParsePrimary(part.text + rest, n) == Parsed(expr(n), rest, n + |part.args|)
    requires forall n: nat, all: seq<Value> ::
      StandAt(part.args, all, n) ==> (Eval(expr(n), all, row) == True <==> condition)
    ensures Means(part, row, condition)
  {
    forall rest: seq<Token>, n: nat
      ensures var p := ParsePrimary(part.text + rest, n);
        && p.Parsed? && p.rest == rest && p.next == n + |part.args|
        && forall all: seq<Value> :: StandAt(part.args, all, n) ==> (Eval(p.expr, all, row) == True <==> condition)
    {
      var e := expr(n);
      assert ParsePrimary(part.text + rest, n) == Parsed(e, rest, n + |part.args|);
    }
  }

  lemma OneArgument(v: Value, all: seq<Value>, n: nat)
    requires StandAt([v], all, n)
    ensures Arg(all, n) == v
  {
    assert all[n] == all[n..n + 1][0];
  }

  lemma SinceMeans(from: string, row: AuditRow)
    requires ValidStamp(row.at)
    ensures MeansAll(SincePart(from), row, SinceOk(from, row.at.day))
  {
    if ParseDay(from).Some? {
      var part := SincePart(from)[0];
      DayBounds(ParseDay(from).value, row.at);
      forall rest: seq<Token>, n: nat
        ensures ParsePrimary(part.text + rest, n) == Parsed(AtLeast(CreatedAt, n), rest, n + 1)
      {
        assert (part.text + rest)[1..][2..] == rest;
      }
      forall n: nat, all: seq<Value> | StandAt(part.args, all, n)
        ensures Eval(AtLeast(CreatedAt, n), all, row) == True <==> SinceOk(from, row.at.day)
      {
        OneArgument(part.args[0], all, n);
      }
    }
  }

  lemma UntilMeans(to: string, row: AuditRow)
    requires ValidStamp(row.at)
    ensures MeansAll(UntilPart(to), row, UntilOk(to, row.at.day))
  {
    if ParseDay(to).Some? {
      var part := UntilPart(to)[0];
      DayBounds(ParseDay(to).value, row.at);
      forall rest: seq<Token>, n: nat
        ensures ParsePrimary(part.text + rest, n) == Parsed(AtMost(CreatedAt, n), rest, n + 1)
      {
        assert (part.text + rest)[1..][2..] == rest;
      }
      forall n: nat, all: seq<Value> | StandAt(part.args, all, n)
        ensures Eval(AtMost(CreatedAt, n), all, row) == True <==> UntilOk(to, row.at.day)
      {
        OneArgument(part.args[0], all, n);
      }
    }
  }

  function SearchExpr(column: Column, op: string, n: nat): Expr {
    if op == OP_NOT then Or(IsNull(column), Like(column, n, '\\', true)) else Like(column, n, '\\', false)
  }

  /** The words of the negated search, one test after the other. */
  lemma NegatedTextSpelt(column: Column, rest: seq<Token>)
    ensures LikeText(column, OP_NOT) + rest
            == [Open] + ([Name(column), IsWord, NullWord] + ([OrWord] + ([Name(column), NotWord, LikeWord]
               + ([Mark, EscapeWord, Literal("\\")] + ([Close] + rest)))))
  {
  }

  lemma NegatedTextParses(column: Column, rest: seq<Token>, n: nat)
    ensures ParsePrimary(LikeText(column, OP_NOT) + rest, n) == Parsed(SearchExpr(column, OP_NOT, n), rest, n + 1)
  {
    var operand := [Mark, EscapeWord, Literal("\\")] + ([Close] + rest);
    var second := [Name(column), NotWord, LikeWord] + operand;
    var first := [Name(column), IsWord, NullWord] + ([OrWord] + second);
    LikeParses(column, '\\', true, [Close] + rest, n);
    IsNullParses(column, [OrWord] + second, n);
    ParenthesesParse(first, IsNull(column), n, second, Like(column, n, '\\', true), n, rest, n + 1);
    NegatedTextSpelt(column, rest);
  }

  lemma SearchTextParses(column: Column, op: string, rest: seq<Token>, n: nat)
    ensures ParsePrimary(LikeText(column, op) + rest, n) == Parsed(SearchExpr(column, op, n), rest, n + 1)
  {
    if op == OP_NOT {
      NegatedTextParses(column, rest, n);
    } else {
      LikeParses(column, '\\', false, rest, n);
      assert LikeText(column, op) + rest == [Name(column), LikeWord] + ([Mark, EscapeWord, Literal("\\")] + rest);
    }
  }

  function Found(row: AuditRow, column: Column): Option<string>
    requires Searchable(column)
  {
    match Get(row, column)
    case Text(s) => Some(s)
    case _ => None
  }

  lemma SearchExprMeans(column: Column, text: string, op: string, row: AuditRow, all: seq<Value>, n: nat)
    requires Searchable(column) && text != ""
    requires Arg(all, n) == Text("%" + EscapeLike(text) + "%")
    ensures Eval(SearchExpr(column, op, n), all, row) == True <==> SearchOk(text, op, Found(row, column))
  {
    if Get(row, column).Text? { LikeIsSearch(Get(row, column).text, text); }
  }

  lemma SearchMeans(column: Column, text: string, op: string, row: AuditRow)
    requires Searchable(column)
    ensures MeansAll(SearchPart(column, text, op), row, SearchOk(text, op, Found(row, column)))
  {
    if text != "" {
      var part := SearchPart(column, text, op)[0];
      forall rest: seq<Token>, n: nat
        ensures ParsePrimary(part.text + rest, n) == Parsed(SearchExpr(column, op, n), rest, n + 1)
      {
        SearchTextParses(column, op, rest, n);
      }
      forall n: nat, all: seq<Value> | StandAt(part.args, all, n)
        ensures Eval(SearchExpr(column, op, n), all, row) == True <==> SearchOk(text, op, Found(row, column))
      {
        OneArgument(part.args[0], all, n);
        SearchExprMeans(column, text, op, row, all, n);
      }
      MeansBy(part, row, SearchOk(text, op, Found(row, column)), (n: nat) => SearchExpr(column, op, n));
    }
  }

  // ---- lists of choices ---------------------------------------------------------------------------

  lemma {:induction false} PlaceholdersParse(n: nat, rest: seq<Token>)
    requires n > 0
    ensures ParseMarks(Placeholders(n) + ([Close] + rest)) == Marks(n, rest)
  {
    var ts := Placeholders(n) + ([Close] + rest);
    if n == 1 {
      assert ts[2..] == rest;
    } else {
      assert ts[2..] == Placeholders(n - 1) + ([Close] + rest);
      PlaceholdersParse(n - 1, rest);
    }
  }

  lemma InListParses(column: Column, count: nat, rest: seq<Token>, n: nat)
    requires count > 0
    ensures ParsePrimary(InList(column, count) + rest, n) == Parsed(OneOf(column, n, count), rest, n + count)
  {
    var list := Placeholders(count) + ([Close] + rest);
    assert InList(column, count) + rest == [Name(column)] + ([InWord, Open] + list);
    assert ([Name(column)] + ([InWord, Open] + list))[1..] == [InWord, Open] + list;
    assert ([InWord, Open] + list)[2..] == list;
    PlaceholdersParse(count, rest);
  }

  /** IN is true when a parameter equals the column. */
  lemma {:induction false} AmongMeans(v: Value, all: seq<Value>, n: nat, args: seq<Value>)
    requires StandAt(args, all, n)
    ensures AmongMarks(v, all, n, |args|) == True <==> v != Null && v in args
    decreases |args|
  {
    if args != [] {
      assert all[n] == all[n..n + |args|][0] == args[0];
      assert all[n + 1..n + |args|] == all[n..n + |args|][1..] == args[1..];
      AmongMeans(v, all, n + 1, args[1..]);
      assert v in args <==> v == args[0] || v in args[1..];
    }
  }

  lemma {:induction false} CleanMeans(values: seq<string>)
    ensures forall c :: c in Clean(values) <==> c != "" && exists w :: w in values && Trim(w) == c
  {
    if values != [] {
      CleanMeans(values[1..]);
      forall c ensures c in Clean(values) <==> c != "" && exists w :: w in values && Trim(w) == c {
        if c in Clean(values[1..]) {
          var w :| w in values[1..] && Trim(w) == c;
          assert w in values;
        }
        if c == Trim(values[0]) { assert values[0] in values; }
        if w :| c != "" && w in values && Trim(w) == c {
          assert w == values[0] || w in values[1..];
        }
      }
    }
  }

  lemma {:induction false} NamedMeans(choices: seq<string>)
    ensures forall s :: Text(s) in Named(choices) <==> s in choices && s != NONE_VALUE
    ensures Null !in Named(choices)
    ensures Named(choices) == [] <==> forall s :: s in choices ==> s == NONE_VALUE
  {
    if choices != [] {
      NamedMeans(choices[1..]);
      assert forall s :: s in choices <==> s == choices[0] || s in choices[1..];
    }
  }

  lemma {:induction false} NumbersMean(choices: seq<string>)
    ensures forall n :: Number(n) in Numbers(choices) <==> exists s :: s in choices && ParseInt(s) == Some(n)
    ensures Numbers(choices) == [] <==> forall s :: s in choices ==> ParseInt(s).None?
  {
    if choices != [] {
      NumbersMean(choices[1..]);
      forall n ensures Number(n) in Numbers(choices) <==> exists s :: s in choices && ParseInt(s) == Some(n) {
        if s :| s in choices && ParseInt(s) == Some(n) {
          assert s == choices[0] || s in choices[1..];
        }
        if s :| s in choices[1..] && ParseInt(s) == Some(n) {
          assert s in choices;
        }
      }
      assert forall s :: s in choices <==> s == choices[0] || s in choices[1..];
    }
  }

  function ChoiceExpr(column: Column, choices: seq<string>, n: nat): Expr {
    var k := |Named(choices)|;
    if k == 0 then IsNull(column)
    else if NONE_VALUE in choices then Or(OneOf(column, n, k), IsNull(column))
    else OneOf(column, n, k)
  }

  lemma ListOrNullSpelt(list: seq<Token>, column: Column, rest: seq<Token>)
    ensures [Open] + list + [OrWord, Name(column), IsWord, NullWord, Close] + rest
            == [Open] + (list + ([OrWord] + ([Name(column), IsWord, NullWord] + ([Close] + rest))))
  {
  }

  lemma ListOrNullParses(column: Column, k: nat, rest: seq<Token>, n: nat)
    requires k > 0
    ensures ParsePrimary([Open] + InList(column, k) + [OrWord, Name(column), IsWord, NullWord, Close] + rest, n)
            == Parsed(Or(OneOf(column, n, k), IsNull(column)), rest, n + k)
  {
    var second := [Name(column), IsWord, NullWord] + ([Close] + rest);
    InListParses(column, k, [OrWord] + second, n);
    IsNullParses(column, [Close] + rest, n + k);
    var first := InList(column, k) + ([OrWord] + second);
    ParenthesesParse(first, OneOf(column, n, k), n, second, IsNull(column), n + k, rest, n + k);
    ListOrNullSpelt(InList(column, k), column, rest);
  }

  lemma ChoiceTextParses(column: Column, choices: seq<string>, rest: seq<Token>, n: nat)
    ensures ParsePrimary(ChoiceText(column, choices) + rest, n)
            == Parsed(ChoiceExpr(column, choices, n), rest, n + |Named(choices)|)
  {
    var k := |Named(choices)|;
    if k == 0 {
      IsNullParses(column, rest, n);
    } else if NONE_VALUE in choices {
      ListOrNullParses(column, k, rest, n);
    } else {
      InListParses(column, k, rest, n);
    }
  }

  lemma ChosenAlternatives(choices: seq<string>, v: Option<string>)
    ensures (exists c :: c in choices && Picks(c, v))
            <==> if v.None? then NONE_VALUE in choices else v.value in choices && v.value != NONE_VALUE
  {
    if v.None? && NONE_VALUE in choices { assert Picks(NONE_VALUE, v); }
    if v.Some? && v.value in choices && v.value != NONE_VALUE { assert Picks(v.value, v); }
  }

  lemma ListMeans(choices: seq<string>, v: Value, all: seq<Value>, n: nat)
    requires StandAt(Named(choices), all, n)
    ensures AmongMarks(v, all, n, |Named(choices)|) == True <==> v.Text? && v.text in choices && v.text != NONE_VALUE
  {
    NamedMeans(choices);
    AmongMeans(v, all, n, Named(choices));
    NamedAreTexts(choices);
  }

  lemma {:induction false} NamedAreTexts(choices: seq<string>)
    ensures forall v :: v in Named(choices) ==> v.Text?
  {
    if choices != [] { NamedAreTexts(choices[1..]); }
  }

  lemma OnlySentinels(choices: seq<string>)
    requires choices != [] && Named(choices) == []
    ensures forall c :: c in choices <==> c == NONE_VALUE
  {
    NamedMeans(choices);
    assert choices[0] in choices;
  }

  lemma FoundIsColumn(row: AuditRow, column: Column)
    requires Searchable(column)
    ensures Get(row, column) == Nullable(Found(row, column))
  {
  }

  lemma ChoiceExprMeans(column: Column, choices: seq<string>, row: AuditRow, all: seq<Value>, n: nat)
    requires Searchable(column) && choices != [] && StandAt(Named(choices), all, n)
    ensures Eval(ChoiceExpr(column, choices, n), all, row) == True
            <==> exists c :: c in choices && Picks(c, Found(row, column))
  {
    var v := Found(row, column);
    FoundIsColumn(row, column);
    ChosenAlternatives(choices, v);
    if Named(choices) == [] {
      OnlySentinels(choices);
    } else {
      ListMeans(choices, Nullable(v), all, n);
    }
  }

  lemma ChosenAmongClean(values: seq<string>, v: Option<string>)
    ensures Clean(values) == [] ==> ChosenOk(values, v)
    ensures Clean(values) != [] ==> (ChosenOk(values, v) <==> exists c :: c in Clean(values) && Picks(c, v))
  {
    CleanMeans(values);
    if Clean(values) == [] {
      forall w | w in values ensures Trim(w) == "" {
        assert Trim(w) !in Clean(values);
      }
    } else {
      var c0 := Clean(values)[0];
      assert c0 in Clean(values);
      if w :| w in values && Trim(w) != "" && Picks(Trim(w), v) {
        assert Trim(w) in Clean(values);
      }
    }
  }

  lemma ChoiceMeans(column: Column, values: seq<string>, row: AuditRow)
    requires Searchable(column)
    ensures MeansAll(ChoicePart(column, values), row, ChosenOk(values, Found(row, column)))
  {
    var choices := Clean(values);
    ChosenAmongClean(values, Found(row, column));
    if choices != [] {
      var part := ChoicePart(column, values)[0];
      forall rest: seq<Token>, n: nat
        ensures ParsePrimary(part.text + rest, n) == Parsed(ChoiceExpr(column, choices, n), rest, n + |part.args|)
      {
        ChoiceTextParses(column, choices, rest, n);
      }
      forall n: nat, all: seq<Value> | StandAt(part.args, all, n)
        ensures Eval(ChoiceExpr(column, choices, n), all, row) == True <==> ChosenOk(values, Found(row, column))
      {
        ChoiceExprMeans(column, choices, row, all, n);
      }
      MeansBy(part, row, ChosenOk(values, Found(row, column)), (n: nat) => ChoiceExpr(column, choices, n));
    }
  }

  lemma OutcomeAmongNumbers(values: seq<string>, success: int)
    ensures Numbers(Clean(values)) == [] ==> OutcomeOk(values, success)
    ensures Numbers(Clean(values)) != [] ==> (OutcomeOk(values, success) <==> Number(success) in Numbers(Clean(values)))
  {
    CleanMeans(values);
    NumbersMean(Clean(values));
    forall w | w in values && ParseInt(Trim(w)).Some? ensures Trim(w) in Clean(values) {
    }
  }

  lemma {:induction false} NumbersAreNumbers(choices: seq<string>)
    ensures Null !in Numbers(choices)
  {
    if choices != [] { NumbersAreNumbers(choices[1..]); }
  }

  lemma OutcomeListMeans(values: seq<string>, row: AuditRow, all: seq<Value>, n: nat)
    requires Numbers(Clean(values)) != [] && StandAt(Numbers(Clean(values)), all, n)
    ensures Eval(OneOf(Success, n, |Numbers(Clean(values))|), all, row) == True <==> OutcomeOk(values, row.success)
  {
    OutcomeAmongNumbers(values, row.success);
    AmongMeans(Number(row.success), all, n, Numbers(Clean(values)));
  }

  lemma OutcomeMeans(values: seq<string>, row: AuditRow)
    ensures MeansAll(OutcomePart(values), row, OutcomeOk(values, row.success))
  {
    var numbers := Numbers(Clean(values));
    if numbers == [] {
      OutcomeAmongNumbers(values, row.success);
    } else {
      var part := OutcomePart(values)[0];
      forall rest: seq<Token>, n: nat
        ensures ParsePrimary(part.text + rest, n) == Parsed(OneOf(Success, n, |numbers|), rest, n + |part.args|)
      {
        InListParses(Success, |numbers|, rest, n);
      }
      forall n: nat, all: seq<Value> | StandAt(part.args, all, n)
        ensures Eval(OneOf(Success, n, |numbers|), all, row) == True <==> OutcomeOk(values, row.success)
      {
        OutcomeListMeans(values, row, all, n);
      }
      MeansBy(part, row, OutcomeOk(values, row.success), (n: nat) => OneOf(Success, n, |numbers|));
    }
  }

  // ---- the clauses joined -------------------------------------------------------------------------

  /** What a clause says of a row on its own. */
  ghost predicate Meets(part: Part, row: AuditRow) {
    var p := ParsePrimary(part.text, 0);
    p.Parsed? && Eval(p.expr, part.args, row) == True
  }

  ghost predicate AllMeet(parts: seq<Part>, row: AuditRow) {
    parts == [] || (Meets(parts[0], row) && AllMeet(parts[1..], row))
  }

  ghost predicate Sound(parts: seq<Part>, row: AuditRow) {
    parts == [] || (Means(parts[0], row, Meets(parts[0], row)) && Sound(parts[1..], row))
  }

  lemma MeansWhatItMeets(part: Part, row: AuditRow, condition: bool)
    requires Means(part, row, condition)
    ensures Meets(part, row) == condition
  {
    assert part.text + [] == part.text;
    assert StandAt(part.args, part.args, 0);
    var p := ParsePrimary(part.text + [], 0);
    assert Eval(p.expr, part.args, row) == True <==> condition;
  }

  /** Clauses that hold together on exactly the rows that meet the condition. */
  ghost predicate SoundFor(parts: seq<Part>, row: AuditRow, condition: bool) {
    Sound(parts, row) && (AllMeet(parts, row) <==> condition)
  }

  lemma FieldIsSound(parts: seq<Part>, row: AuditRow, condition: bool)
    requires MeansAll(parts, row, condition)
    ensures SoundFor(parts, row, condition)
  {
    if |parts| == 1 {
      MeansWhatItMeets(parts[0], row, condition);
      assert parts[1..] == [];
    }
  }

  lemma Combined(some: seq<Part>, a: bool, more: seq<Part>, b: bool, row: AuditRow)
    requires SoundFor(some, row, a) && SoundFor(more, row, b)
    ensures SoundFor(some + more, row, a && b)
  {
    SoundTogether(some, more, row);
  }

  lemma ThreeCombined(first: seq<Part>, a: bool, second: seq<Part>, b: bool, third: seq<Part>, c: bool, row: AuditRow)
    requires SoundFor(first, row, a) && SoundFor(second, row, b) && SoundFor(third, row, c)
    ensures SoundFor(first + (second + third), row, a && b && c)
  {
    Combined(second, b, third, c, row);
    Combined(first, a, second + third, b && c, row);
  }

  lemma {:induction false} SoundTogether(some: seq<Part>, more: seq<Part>, row: AuditRow)
    requires Sound(some, row) && Sound(more, row)
    ensures Sound(some + more, row)
    ensures AllMeet(some + more, row) <==> AllMeet(some, row) && AllMeet(more, row)
  {
    if some == [] {
      assert some + more == more;
    } else {
      assert (some + more)[1..] == some[1..] + more;
      SoundTogether(some[1..], more, row);
    }
  }

  lemma ConjunctionParses(ts: seq<Token>, e: Expr, n: nat, us: seq<Token>, f: Expr, n1: nat, n2: nat)
    requires ParsePrimary(ts, n) == Parsed(e, [AndWord] + us, n1)
    requires ParseAnd(us, n1) == Parsed(f, [], n2)
    ensures ParseAnd(ts, n) == Parsed(And(e, f), [], n2)
  {
    assert ([AndWord] + us)[1..] == us;
  }

  lemma ArgumentsSplit(first: seq<Value>, others: seq<Value>, all: seq<Value>, n: nat)
    requires StandAt(first + others, all, n)
    ensures StandAt(first, all, n) && StandAt(others, all, n + |first|)
  {
    var both := first + others;
    assert all[n..n + |first|] == all[n..n + |both|][..|first|];
    assert all[n + |first|..n + |both|] == all[n..n + |both|][|first|..];
  }

  /** A clause in front of anything, with the facts that Means gives about it. */
  lemma ClauseParses(part: Part, row: AuditRow, rest: seq<Token>, all: seq<Value>, n: nat) returns (e: Expr)
    requires Means(part, row, Meets(part, row)) && StandAt(part.args, all, n)
    ensures ParsePrimary(part.text + rest, n) == Parsed(e, rest, n + |part.args|)
    ensures Eval(e, all, row) == True <==> Meets(part, row)
  {
    e := ParsePrimary(part.text + rest, n).expr;
  }

  lemma JoinStep(part: Part, row: AuditRow, more: seq<Token>, f: Expr, all: seq<Value>, n: nat, n2: nat)
    returns (e: Expr)
    requires Means(part, row, Meets(part, row)) && StandAt(part.args, all, n)
    requires ParseAnd(more, n + |part.args|) == Parsed(f, [], n2)
    ensures ParseAnd(part.text + ([AndWord] + more), n) == Parsed(e, [], n2)
    ensures Eval(e, all, row) == True <==> Meets(part, row) && Eval(f, all, row) == True
  {
    var e0 := ClauseParses(part, row, [AndWord] + more, all, n);
    ConjunctionParses(part.text + ([AndWord] + more), e0, n, more, f, n + |part.args|, n2);
    e := And(e0, f);
  }

  lemma JoinedMore(parts: seq<Part>, row: AuditRow, f: Expr, all: seq<Value>, n: nat, n1: nat, n2: nat)
    returns (e: Expr)
    requires |parts| > 1 && Means(parts[0], row, Meets(parts[0], row)) && StandAt(parts[0].args, all, n)
    requires n1 == n + |parts[0].args| && ParseAnd(JoinAnd(Texts(parts[1..])), n1) == Parsed(f, [], n2)
    ensures ParseAnd(JoinAnd(Texts(parts)), n) == Parsed(e, [], n2)
    ensures Eval(e, all, row) == True <==> Meets(parts[0], row) && Eval(f, all, row) == True
  {
    TextsFollow(parts);
    e := JoinStep(parts[0], row, JoinAnd(Texts(parts[1..])), f, all, n, n2);
  }

  lemma ArgsFollow(parts: seq<Part>, all: seq<Value>, n: nat)
    requires parts != [] && StandAt(Args(parts), all, n)
    ensures StandAt(parts[0].args, all, n) && StandAt(Args(parts[1..]), all, n + |parts[0].args|)
    ensures |Args(parts)| == |parts[0].args| + |Args(parts[1..])|
  {
    ArgumentsSplit(parts[0].args, Args(parts[1..]), all, n);
  }

  /** The joined text is the conjunction of the clauses, each with its own arguments. */
  lemma {:induction false} JoinedMeansAll(parts: seq<Part>, row: AuditRow, all: seq<Value>, n: nat, n2: nat)
    returns (e: Expr)
    requires parts != [] && Sound(parts, row) && StandAt(Args(parts), all, n) && n2 == n + |Args(parts)|
    ensures ParseAnd(JoinAnd(Texts(parts)), n) == Parsed(e, [], n2)
    ensures Eval(e, all, row) == True <==> AllMeet(parts, row)
    decreases |parts|
  {
    ArgsFollow(parts, all, n);
    if |parts| == 1 {
      OneText(parts);
      e := LastParses(parts[0], row, all, n);
    } else {
      var n1 := n + |parts[0].args|;
      var f := JoinedMeansAll(parts[1..], row, all, n1, n2);
      e := JoinedMore(parts, row, f, all, n, n1, n2);
    }
  }

  lemma OneText(parts: seq<Part>)
    requires |parts| == 1
    ensures JoinAnd(Texts(parts)) == parts[0].text && Args(parts) == parts[0].args
  {
    assert Texts(parts) == [parts[0].text] + Texts([]) == [parts[0].text];
    assert Args(parts) == parts[0].args + Args([]) == parts[0].args;
  }

  lemma LastParses(part: Part, row: AuditRow, all: seq<Value>, n: nat) returns (e: Expr)
    requires Means(part, row, Meets(part, row)) && StandAt(part.args, all, n)
    ensures ParseAnd(part.text, n) == Parsed(e, [], n + |part.args|)
    ensures Eval(e, all, row) == True <==> Meets(part, row)
  {
    e := ClauseParses(part, row, [], all, n);
    assert part.text + [] == part.text;
  }

  lemma TextsFollow(parts: seq<Part>)
    requires |parts| > 1
    ensures JoinAnd(Texts(parts)) == parts[0].text + ([AndWord] + JoinAnd(Texts(parts[1..])))
  {
    assert Texts(parts)[1..] == Texts(parts[1..]);
    assert |Texts(parts[1..])| >= 1;
  }

  lemma JoinedSelects(parts: seq<Part>, row: AuditRow)
    requires Sound(parts, row)
    ensures QuerySelects(JoinAnd(Texts(parts)), Args(parts), row) <==> AllMeet(parts, row)
  {
    if parts != [] {
      assert StandAt(Args(parts), Args(parts), 0);
      var _ := JoinedMeansAll(parts, row, Args(parts), 0, |Args(parts)|);
    }
  }

  lemma DatePartsSound(f: Filter, row: AuditRow)
    requires ValidStamp(row.at)
    ensures SoundFor(DateParts(f), row, SinceOk(f.from, row.at.day) && UntilOk(f.to, row.at.day))
  {
    var since, until := SinceOk(f.from, row.at.day), UntilOk(f.to, row.at.day);
    SinceMeans(f.from, row);
    FieldIsSound(SincePart(f.from), row, since);
    UntilMeans(f.to, row);
    FieldIsSound(UntilPart(f.to), row, until);
    Combined(SincePart(f.from), since, UntilPart(f.to), until, row);
  }

  lemma ChoiceSound(column: Column, values: seq<string>, row: AuditRow, v: Option<string>)
    requires Searchable(column) && v == Found(row, column)
    ensures SoundFor(ChoicePart(column, values), row, ChosenOk(values, v))
  {
    ChoiceMeans(column, values, row);
    FieldIsSound(ChoicePart(column, values), row, ChosenOk(values, v));
  }

  lemma SearchSound(column: Column, text: string, op: string, row: AuditRow, v: Option<string>)
    requires Searchable(column) && v == Found(row, column)
    ensures SoundFor(SearchPart(column, text, op), row, SearchOk(text, op, v))
  {
    SearchMeans(column, text, op, row);
    FieldIsSound(SearchPart(column, text, op), row, SearchOk(text, op, v));
  }

  predicate Searchable(column: Column) {
    column !in {CreatedAt, Success}
  }

  predicate ChoicesOk(choices: seq<Choice>, row: AuditRow)
    requires forall c :: c in choices ==> Searchable(c.column)
  {
    forall c :: c in choices ==> ChosenOk(c.values, Found(row, c.column))
  }

  ghost predicate SearchesOk(searches: seq<Search>, row: AuditRow)
    requires forall c :: c in searches ==> Searchable(c.column)
  {
    forall c :: c in searches ==> SearchOk(c.text, c.op, Found(row, c.column))
  }

  lemma {:induction false} ChoicePartsSound(choices: seq<Choice>, row: AuditRow)
    requires forall c :: c in choices ==> Searchable(c.column)
    ensures SoundFor(ChoiceParts(choices), row, ChoicesOk(choices, row))
  {
    if choices != [] {
      var c := choices[0];
      assert c in choices;
      ChoiceSound(c.column, c.values, row, Found(row, c.column));
      ChoicePartsSound(choices[1..], row);
      Combined(ChoicePart(c.column, c.values), ChosenOk(c.values, Found(row, c.column)),
               ChoiceParts(choices[1..]), ChoicesOk(choices[1..], row), row);
      assert forall d :: d in choices <==> d == c || d in choices[1..];
    }
  }

  lemma {:induction false} SearchPartsSound(searches: seq<Search>, row: AuditRow)
    requires forall c :: c in searches ==> Searchable(c.column)
    ensures SoundFor(SearchParts(searches), row, SearchesOk(searches, row))
  {
    if searches != [] {
      var c := searches[0];
      assert c in searches;
      SearchSound(c.column, c.text, c.op, row, Found(row, c.column));
      SearchPartsSound(searches[1..], row);
      Combined(SearchPart(c.column, c.text, c.op), SearchOk(c.text, c.op, Found(row, c.column)),
               SearchParts(searches[1..]), SearchesOk(searches[1..], row), row);
      assert forall d :: d in searches <==> d == c || d in searches[1..];
    }
  }

  lemma ChoicesOkByColumn(f: Filter, row: AuditRow)
    ensures ChoicesOk(Choices(f), row)
            <==> ChosenOk(f.events, Some(row.eventType)) && ChosenOk(f.methods, row.authMethod)
                 && ChosenOk(f.services, row.serviceId)
  {
    var cs := Choices(f);
    assert cs[0] in cs && cs[1] in cs && cs[2] in cs;
  }

  lemma SearchesOkByColumn(f: Filter, row: AuditRow)
    ensures SearchesOk(Searches(f), row)
            <==> SearchOk(f.email, f.emailOp, row.email) && SearchOk(f.ip, f.ipOp, row.ipAddress)
                 && SearchOk(f.details, f.detailsOp, row.details)
  {
    var ss := Searches(f);
    assert ss[0] in ss && ss[1] in ss && ss[2] in ss;
  }

  lemma PartsAreSound(f: Filter, row: AuditRow)
    requires ValidStamp(row.at)
    ensures SoundFor(Parts(f), row, Accepts(f, row))
  {
    DatePartsSound(f, row);
    ChoicePartsSound(Choices(f), row);
    SearchPartsSound(Searches(f), row);
    OutcomeMeans(f.ok, row);
    var dates := SinceOk(f.from, row.at.day) && UntilOk(f.to, row.at.day);
    var outcome := OutcomeOk(f.ok, row.success);
    FieldIsSound(OutcomePart(f.ok), row, outcome);
    Combined(SearchParts(Searches(f)), SearchesOk(Searches(f), row), OutcomePart(f.ok), outcome, row);
    ThreeCombined(DateParts(f), dates, ChoiceParts(Choices(f)), ChoicesOk(Choices(f), row),
                  SearchParts(Searches(f)) + OutcomePart(f.ok), SearchesOk(Searches(f), row) && outcome, row);
    ChoicesOkByColumn(f, row);
    SearchesOkByColumn(f, row);
  }

  /** The compiled query returns exactly the rows that the filter describes. */
  lemma CompiledMeansFilter(f: Filter, row: AuditRow)
    requires ValidStamp(row.at)
    ensures QuerySelects(JoinAnd(Texts(Parts(f))), Args(Parts(f)), row) <==> Accepts(f, row)
  {
    PartsAreSound(f, row);
    JoinedSelects(Parts(f), row);
  }

  /** Switching one search between "contains" and "not" splits the rows in two, rows without a value included. */
  lemma NotIsTheComplement(text: string, op: string, row: AuditRow, column: Column)
    requires Searchable(column) && text != "" && op != OP_NOT
    ensures QuerySelects(LikeText(column, OP_NOT), [Text("%" + EscapeLike(text) + "%")], row)
            <==> !QuerySelects(LikeText(column, op), [Text("%" + EscapeLike(text) + "%")], row)
  {
    var yes, no := SearchPart(column, text, op), SearchPart(column, text, OP_NOT);
    SearchMeans(column, text, op, row);
    SearchMeans(column, text, OP_NOT, row);
    FieldIsSound(yes, row, SearchOk(text, op, Found(row, column)));
    FieldIsSound(no, row, SearchOk(text, OP_NOT, Found(row, column)));
    JoinedSelects(yes, row);
    JoinedSelects(no, row);
    assert JoinAnd(Texts(yes)) == LikeText(column, op) && Args(yes) == [Text("%" + EscapeLike(text) + "%")];
    assert JoinAnd(Texts(no)) == LikeText(column, OP_NOT) && Args(no) == [Text("%" + EscapeLike(text) + "%")];
  }
}
