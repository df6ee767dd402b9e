/** The filter at work: the loops that build the WHERE text, and the links that carry the filter on. */
module AuditQuery {
  import opened Common
  import opened Strings
  import opened Strconv
  import opened Timestamps
  import opened Sql
  import opened AuditFilter

  // ---- building the query -------------------------------------------------------------------------

  /** What the loop has kept, with the next value and with what is still to come. */
  lemma CleanStep(cleaned: seq<string>, values: seq<string>, i: nat)
    requires i < |values|
    ensures cleaned + Clean(values[i..])
            == (if Trim(values[i]) == "" then cleaned else cleaned + [Trim(values[i])]) + Clean(values[i + 1..])
  {
    assert values[i..][1..] == values[i + 1..];
  }

  method CleanChoices(values: seq<string>) returns (cleaned: seq<string>)
    ensures cleaned == Clean(values)
  {
    cleaned := [];
    for i := 0 to |values|
      invariant cleaned + Clean(values[i..]) == Clean(values)
    {
      CleanStep(cleaned, values, i);
      var s := Trim(values[i]);
      if s != "" {
        cleaned := cleaned + [s];
      }
    }
  }

  lemma OnePart(part: Part)
    ensures Texts([part]) == [part.text] && Args([part]) == part.args
  {
    assert [part][1..] == [];
  }

  lemma NamedStep(choices: seq<string>, i: nat)
    requires i < |choices|
    ensures Named(choices[i..])
            == (if choices[i] == NONE_VALUE then [] else [Text(choices[i])]) + Named(choices[i + 1..])
    ensures NONE_VALUE in choices[..i + 1] <==> NONE_VALUE in choices[..i] || choices[i] == NONE_VALUE
  {
    assert choices[i..][1..] == choices[i + 1..];
    assert choices[..i + 1] == choices[..i] + [choices[i]];
  }

  /** The values to look for, and whether the sentinel was among the choices. */
  method SplitChoices(choices: seq<string>) returns (includeNull: bool, args: seq<Value>)
    ensures args == Named(choices) && (includeNull <==> NONE_VALUE in choices)
  {
    includeNull, args := false, [];
    for i := 0 to |choices|
      invariant args + Named(choices[i..]) == Named(choices)
      invariant includeNull <==> NONE_VALUE in choices[..i]
    {
      NamedStep(choices, i);
      if choices[i] == NONE_VALUE {
        includeNull := true;
      } else {
        args := args + [Text(choices[i])];
      }
    }
    assert choices[..|choices|] == choices;
  }

  /** An empty clause means that the column is not restricted. */
  method ChoiceClause(column: Column, values: seq<string>) returns (clause: seq<Token>, args: seq<Value>)
    ensures Texts(ChoicePart(column, values)) == if clause == [] then [] else [clause]
    ensures Args(ChoicePart(column, values)) == args && (clause == [] ==> args == [])
  {
    var choices := CleanChoices(values);
    if |choices| == 0 {
      return [], [];
    }
    var includeNull;
    includeNull, args := SplitChoices(choices);
    if |args| == 0 {
      clause := [Name(column), IsWord, NullWord];
    } else if includeNull {
      clause := [Open] + InList(column, |args|) + [OrWord, Name(column), IsWord, NullWord, Close];
    } else {
      clause := InList(column, |args|);
    }
    assert clause == ChoiceText(column, choices);
    OnePart(Part(clause, args));
  }

  lemma NumbersStep(choices: seq<string>, i: nat)
    requires i < |choices|
    ensures Numbers(choices[i..])
            == (match ParseInt(choices[i]) case None => [] case Some(n) => [Number(n)]) + Numbers(choices[i + 1..])
  {
    assert choices[i..][1..] == choices[i + 1..];
  }

  /** Values that are no numbers are ignored. */
  method ParseNumbers(choices: seq<string>) returns (args: seq<Value>)
    ensures args == Numbers(choices)
  {
    args := [];
    for i := 0 to |choices|
      invariant args + Numbers(choices[i..]) == Numbers(choices)
    {
      NumbersStep(choices, i);
      var n := ParseInt(choices[i]);
      if n.Some? {
        args := args + [Number(n.value)];
      }
    }
  }

  method SuccessClause(values: seq<string>) returns (clause: seq<Token>, args: seq<Value>)
    ensures Texts(OutcomePart(values)) == if clause == [] then [] else [clause]
    ensures Args(OutcomePart(values)) == args
  {
    var choices := CleanChoices(values);
    args := ParseNumbers(choices);
    clause := [];
    if |args| > 0 {
      clause := InList(Success, |args|);
      OnePart(Part(clause, args));
    }
  }

  lemma {:induction false} ConcatenatedParts(some: seq<Part>, more: seq<Part>)
    ensures Texts(some + more) == Texts(some) + Texts(more)
    ensures Args(some + more) == Args(some) + Args(more)
  {
    if some == [] {
      assert some + more == more;
    } else {
      var all, rest := some + more, some[1..];
      assert all[0] == some[0] && all[1..] == rest + more;
      ConcatenatedParts(rest, more);
      assert Texts(all) == [some[0].text] + (Texts(rest) + Texts(more)) == ([some[0].text] + Texts(rest)) + Texts(more);
      assert Args(all) == some[0].args + (Args(rest) + Args(more)) == (some[0].args + Args(rest)) + Args(more);
    }
  }

  /** What a loop has built, with the next field's clause and with what is still to come. */
  lemma NextField(clauses: seq<seq<Token>>, args: seq<Value>, next: seq<Part>, rest: seq<Part>)
    ensures clauses + Texts(next + rest) == (clauses + Texts(next)) + Texts(rest)
    ensures args + Args(next + rest) == (args + Args(next)) + Args(rest)
  {
    ConcatenatedParts(next, rest);
  }

  method DateClauses(f: Filter) returns (clauses: seq<seq<Token>>, args: seq<Value>)
    ensures clauses == Texts(DateParts(f)) && args == Args(DateParts(f))
  {
    clauses, args := [], [];
    var since := ParseDay(f.from);
    if since.Some? {
      clauses := clauses + [[Name(CreatedAt), GreaterEq, Mark]];
      args := args + [Text(FormatDay(since.value) + "T00:00:00Z")];
      OnePart(SincePart(f.from)[0]);
    }
    var until := ParseDay(f.to);
    if until.Some? {
      clauses := clauses + [[Name(CreatedAt), LessEq, Mark]];
      args := args + [Text(FormatDay(until.value) + "T23:59:59Z")];
      OnePart(UntilPart(f.to)[0]);
    }
    ConcatenatedParts(SincePart(f.from), UntilPart(f.to));
  }

  lemma ChoiceStep(choices: seq<Choice>, i: nat)
    requires i < |choices|
    ensures ChoiceParts(choices[i..])
            == ChoicePart(choices[i].column, choices[i].values) + ChoiceParts(choices[i + 1..])
  {
    assert choices[i..][1..] == choices[i + 1..];
  }

  method AddChoice(clauses: seq<seq<Token>>, args: seq<Value>, sel: Choice)
    returns (more: seq<seq<Token>>, a: seq<Value>)
    ensures more == clauses + Texts(ChoicePart(sel.column, sel.values))
    ensures a == args + Args(ChoicePart(sel.column, sel.values))
  {
    var clause, bound := ChoiceClause(sel.column, sel.values);
    more, a := clauses, args;
    if clause != [] {
      more, a := more + [clause], a + bound;
    }
  }

  method ChoiceClauses(choices: seq<Choice>) returns (clauses: seq<seq<Token>>, args: seq<Value>)
    ensures clauses == Texts(ChoiceParts(choices)) && args == Args(ChoiceParts(choices))
  {
    clauses, args := [], [];
    for i := 0 to |choices|
      invariant clauses + Texts(ChoiceParts(choices[i..])) == Texts(ChoiceParts(choices))
      invariant args + Args(ChoiceParts(choices[i..])) == Args(ChoiceParts(choices))
    {
      ChoiceStep(choices, i);
      NextField(clauses, args, ChoicePart(choices[i].column, choices[i].values), ChoiceParts(choices[i + 1..]));
      clauses, args := AddChoice(clauses, args, choices[i]);
    }
  }

  method AddSearch(clauses: seq<seq<Token>>, args: seq<Value>, sub: Search)
    returns (more: seq<seq<Token>>, a: seq<Value>)
    ensures more == clauses + Texts(SearchPart(sub.column, sub.text, sub.op))
    ensures a == args + Args(SearchPart(sub.column, sub.text, sub.op))
  {
    more, a := clauses, args;
    if sub.text != "" {
      OnePart(SearchPart(sub.column, sub.text, sub.op)[0]);
      more := more + [LikeText(sub.column, sub.op)];
      a := a + [Text("%" + EscapeLike(sub.text) + "%")];
    }
  }

  lemma SearchStep(searches: seq<Search>, i: nat)
    requires i < |searches|
    ensures SearchParts(searches[i..])
            == SearchPart(searches[i].column, searches[i].text, searches[i].op) + SearchParts(searches[i + 1..])
  {
    assert searches[i..][1..] == searches[i + 1..];
  }

  method SearchClauses(searches: seq<Search>) returns (clauses: seq<seq<Token>>, args: seq<Value>)
    ensures clauses == Texts(SearchParts(searches)) && args == Args(SearchParts(searches))
  {
    clauses, args := [], [];
    for i := 0 to |searches|
      invariant clauses + Texts(SearchParts(searches[i..])) == Texts(SearchParts(searches))
      invariant args + Args(SearchParts(searches[i..])) == Args(SearchParts(searches))
    {
      SearchStep(searches, i);
      NextField(clauses, args, SearchPart(searches[i].column, searches[i].text, searches[i].op),
                SearchParts(searches[i + 1..]));
      clauses, args := AddSearch(clauses, args, searches[i]);
    }
  }

  method AuditClauses(f: Filter) returns (clauses: seq<seq<Token>>, args: seq<Value>)
    ensures clauses == Texts(Parts(f)) && args == Args(Parts(f))
  {
    var c0, a0 := DateClauses(f);
    var c1, a1 := ChoiceClauses(Choices(f));
    var c2, a2 := SearchClauses(Searches(f));
    var c3, a3 := SuccessClause(f.ok);
    ConcatenatedParts(SearchParts(Searches(f)), OutcomePart(f.ok));
    ConcatenatedParts(ChoiceParts(Choices(f)), SearchParts(Searches(f)) + OutcomePart(f.ok));
    ConcatenatedParts(DateParts(f), ChoiceParts(Choices(f)) + (SearchParts(Searches(f)) + OutcomePart(f.ok)));
    clauses := c0 + (c1 + (c2 + (if c3 == [] then [] else [c3])));
    args := a0 + (a1 + (a2 + a3));
  }

  /** The WHERE text and its arguments select exactly the rows that the filter describes. */
  method BuildAuditQuery(f: Filter) returns (where: seq<Token>, args: seq<Value>)
    ensures forall row: AuditRow :: ValidStamp(row.at) ==> (QuerySelects(where, args, row) <==> Accepts(f, row))
  {
    var clauses;
    clauses, args := AuditClauses(f);
    where := JoinAnd(clauses);
    forall row: AuditRow | ValidStamp(row.at) ensures QuerySelects(where, args, row) <==> Accepts(f, row) {
      CompiledMeansFilter(f, row);
    }
  }

  // ---- links --------------------------------------------------------------------------------------

  /** url.Values. */
  type Query = map<string, seq<string>>

  function First(q: Query, key: string): string {
    if key in q && q[key] != [] then q[key][0] else ""
  }

  function All(q: Query, key: string): seq<string> {
    if key in q then q[key] else []
  }

  function ParseFilter(q: Query): Filter {
    Filter(Trim(First(q, "from")), Trim(First(q, "to")), Trim(First(q, "email")), First(q, "email_op"),
           Trim(First(q, "ip")), First(q, "ip_op"), Trim(First(q, "details")), First(q, "details_op"),
           All(q, "event"), All(q, "method"), All(q, "service"), All(q, "ok"))
  }

  function NonBlank(values: seq<string>): seq<string> {
    if values == [] then [] else (if Trim(values[0]) == "" then [] else [values[0]]) + NonBlank(values[1..])
  }

  function Field(value: string): seq<string> {
    if value == "" then [] else [value]
  }

  /** The operator is carried along only where it does something. */
  function Operator(value: string, op: string): seq<string> {
    if value != "" && op == OP_NOT then [OP_NOT] else []
  }

  /** What a link says about one parameter. */
  function Carried(f: Filter, key: string): seq<string> {
    if key == "from" then Field(f.from)
    else if key == "to" then Field(f.to)
    else if key == "email" then Field(f.email)
    else if key == "ip" then Field(f.ip)
    else if key == "details" then Field(f.details)
    else if key == "email_op" then Operator(f.email, f.emailOp)
    else if key == "ip_op" then Operator(f.ip, f.ipOp)
    else if key == "details_op" then Operator(f.details, f.detailsOp)
    else if key == "event" then NonBlank(f.events)
    else if key == "method" then NonBlank(f.methods)
    else if key == "service" then NonBlank(f.services)
    else if key == "ok" then NonBlank(f.ok)
    else []
  }

  const PARAMETERS := {"from", "to", "email", "ip", "details", "email_op", "ip_op", "details_op",
                       "event", "method", "service", "ok"}

  function QueryString(f: Filter): Query {
    map key | key in PARAMETERS && Carried(f, key) != [] :: Carried(f, key)
  }

  lemma NonBlankStep(value: string, rest: seq<string>)
    ensures Clean([value] + rest) == (if Trim(value) == "" then [] else [Trim(value)]) + Clean(rest)
    ensures NonBlank([value] + rest) == (if Trim(value) == "" then [] else [value]) + NonBlank(rest)
  {
    assert ([value] + rest)[1..] == rest;
  }

  lemma {:induction false} NonBlankIsClean(values: seq<string>)
    ensures Clean(NonBlank(values)) == Clean(values)
    ensures NonBlank(NonBlank(values)) == NonBlank(values)
  {
    if values != [] {
      NonBlankIsClean(values[1..]);
      assert values == [values[0]] + values[1..];
      NonBlankStep(values[0], values[1..]);
      NonBlankStep(values[0], NonBlank(values[1..]));
      if Trim(values[0]) == "" {
        assert NonBlank(values) == NonBlank(values[1..]) && Clean(values) == Clean(values[1..]);
      }
    }
  }

  lemma Carries(f: Filter, key: string)
    requires key in PARAMETERS
    ensures All(QueryString(f), key) == Carried(f, key)
    ensures First(QueryString(f), key) == if Carried(f, key) == [] then "" else Carried(f, key)[0]
  {
  }

  lemma FieldsComeBack(f: Filter)
    requires Trimmed(f.from) && Trimmed(f.to) && Trimmed(f.email) && Trimmed(f.ip) && Trimmed(f.details)
    ensures var g := ParseFilter(QueryString(f));
      g.from == f.from && g.to == f.to && g.email == f.email && g.ip == f.ip && g.details == f.details
  {
    Carries(f, "from");
    Carries(f, "to");
    Carries(f, "email");
    Carries(f, "ip");
    Carries(f, "details");
    TrimmedIsFixed(f.from);
    TrimmedIsFixed(f.to);
    TrimmedIsFixed(f.email);
    TrimmedIsFixed(f.ip);
    TrimmedIsFixed(f.details);
  }

  lemma OperatorsComeBack(f: Filter)
    ensures var g := ParseFilter(QueryString(f));
      && (f.email != "" ==> (g.emailOp == OP_NOT <==> f.emailOp == OP_NOT))
      && (f.ip != "" ==> (g.ipOp == OP_NOT <==> f.ipOp == OP_NOT))
      && (f.details != "" ==> (g.detailsOp == OP_NOT <==> f.detailsOp == OP_NOT))
  {
    Carries(f, "email_op");
    Carries(f, "ip_op");
    Carries(f, "details_op");
  }

  /** A list of choices comes back without its blanks. */
  lemma ChoiceComesBack(f: Filter, key: string, values: seq<string>)
    requires key in PARAMETERS && Carried(f, key) == NonBlank(values)
    ensures All(QueryString(f), key) == NonBlank(values)
  {
    Carries(f, key);
  }

  lemma CarriedChoices(f: Filter)
    ensures Carried(f, "event") == NonBlank(f.events) && Carried(f, "method") == NonBlank(f.methods)
    ensures Carried(f, "service") == NonBlank(f.services) && Carried(f, "ok") == NonBlank(f.ok)
  {
  }

  lemma ChoicesComeBack(f: Filter)
    ensures var g := ParseFilter(QueryString(f));
      && g.events == NonBlank(f.events) && g.methods == NonBlank(f.methods)
      && g.services == NonBlank(f.services) && g.ok == NonBlank(f.ok)
  {
    CarriedChoices(f);
    ChoiceComesBack(f, "event", f.events);
    ChoiceComesBack(f, "method", f.methods);
    ChoiceComesBack(f, "service", f.services);
    ChoiceComesBack(f, "ok", f.ok);
  }

  lemma SearchComesBack(column: Column, text: string, op: string, op': string)
    requires text != "" ==> (op' == OP_NOT <==> op == OP_NOT)
    ensures SearchPart(column, text, op') == SearchPart(column, text, op)
  {
  }

  lemma {:induction false} SameSearchParts(ss: seq<Search>, ts: seq<Search>)
    requires |ss| == |ts|
    requires forall i :: 0 <= i < |ss| ==>
      && ss[i].column == ts[i].column && ss[i].text == ts[i].text
      && (ss[i].text != "" ==> (ss[i].op == OP_NOT <==> ts[i].op == OP_NOT))
    ensures SearchParts(ss) == SearchParts(ts)
  {
    if ss != [] {
      SearchComesBack(ss[0].column, ss[0].text, ss[0].op, ts[0].op);
      SameSearchParts(ss[1..], ts[1..]);
    }
  }

  lemma {:induction false} SameChoiceParts(cs: seq<Choice>, ds: seq<Choice>)
    requires |cs| == |ds|
    requires forall i :: 0 <= i < |cs| ==> cs[i].column == ds[i].column && Clean(cs[i].values) == Clean(ds[i].values)
    ensures ChoiceParts(cs) == ChoiceParts(ds)
  {
    if cs != [] {
      assert ChoicePart(cs[0].column, cs[0].values) == ChoicePart(ds[0].column, ds[0].values);
      SameChoiceParts(cs[1..], ds[1..]);
    }
  }

  lemma ParsedIsTrimmed(q: Query)
    ensures var f := ParseFilter(q);
      Trimmed(f.from) && Trimmed(f.to) && Trimmed(f.email) && Trimmed(f.ip) && Trimmed(f.details)
  {
    TrimTrims(First(q, "from"));
    TrimTrims(First(q, "to"));
    TrimTrims(First(q, "email"));
    TrimTrims(First(q, "ip"));
    TrimTrims(First(q, "details"));
  }

  lemma SearchesComeBack(f: Filter, g: Filter)
    requires g.email == f.email && g.ip == f.ip && g.details == f.details
    requires f.email != "" ==> (g.emailOp == OP_NOT <==> f.emailOp == OP_NOT)
    requires f.ip != "" ==> (g.ipOp == OP_NOT <==> f.ipOp == OP_NOT)
    requires f.details != "" ==> (g.detailsOp == OP_NOT <==> f.detailsOp == OP_NOT)
    ensures SearchParts(Searches(g)) == SearchParts(Searches(f))
  {
    SameSearchParts(Searches(f), Searches(g));
  }

  lemma ChoicesStayClean(f: Filter, g: Filter)
    requires g.events == NonBlank(f.events) && g.methods == NonBlank(f.methods)
    requires g.services == NonBlank(f.services) && g.ok == NonBlank(f.ok)
    ensures ChoiceParts(Choices(g)) == ChoiceParts(Choices(f)) && OutcomePart(g.ok) == OutcomePart(f.ok)
  {
    NonBlankIsClean(f.events);
    NonBlankIsClean(f.methods);
    NonBlankIsClean(f.services);
    NonBlankIsClean(f.ok);
    SameChoiceParts(Choices(f), Choices(g));
  }

  /** Paging and export see the same clauses and arguments as the page whose link they follow. */
  lemma LinksKeepTheQuery(q: Query)
    ensures Parts(ParseFilter(QueryString(ParseFilter(q)))) == Parts(ParseFilter(q))
  {
    var f := ParseFilter(q);
    var g := ParseFilter(QueryString(f));
    ParsedIsTrimmed(q);
    FieldsComeBack(f);
    OperatorsComeBack(f);
    ChoicesComeBack(f);
    SearchesComeBack(f, g);
    ChoicesStayClean(f, g);
  }
}
