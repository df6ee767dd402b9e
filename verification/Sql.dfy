/**
  The part of SQLite's expression language that the audit filter compiles to: grammar, positional
  parameters, three-valued logic and LIKE. A text is given by its words; spelling is left out.
*/
module Sql {
  import opened Common
  import opened Timestamps

  datatype Column = CreatedAt | EventType | AuthMethod | ServiceId | Email | IpAddress | Details | Success

  datatype Token =
    | Name(column: Column) | Mark | GreaterEq | LessEq | InWord | IsWord | NullWord | NotWord | LikeWord
    | EscapeWord | Literal(text: string) | Comma | Open | Close | AndWord | OrWord

  datatype Value = Null | Text(text: string) | Number(number: int)

  datatype Truth = True | False | Unknown

  /** `mark` is the position of a parameter among all parameters of the text, from the left. */
  datatype Expr =
    | AtLeast(column: Column, mark: nat)
    | AtMost(column: Column, mark: nat)
    | OneOf(column: Column, mark: nat, count: nat)
    | IsNull(column: Column)
    | Like(column: Column, mark: nat, escape: char, negated: bool)
    | Or(left: Expr, right: Expr)
    | And(left: Expr, right: Expr)

  // ---- grammar ------------------------------------------------------------------------------------

  datatype Parse = NoParse | Parsed(expr: Expr, rest: seq<Token>, next: nat)

  datatype Marks = NoMarks | Marks(count: nat, rest: seq<Token>)

  /** A list of parameters up to the closing parenthesis. */
  function ParseMarks(ts: seq<Token>): (r: Marks)
    ensures r.Marks? ==> |r.rest| < |ts|
  {
    if |ts| < 2 || ts[0] != Mark then NoMarks
    else if ts[1] == Close then Marks(1, ts[2..])
    else if ts[1] != Comma then NoMarks
    else
      match ParseMarks(ts[2..])
      case NoMarks => NoMarks
      case Marks(count, rest) => Marks(count + 1, rest)
  }

  function ParseLike(column: Column, ts: seq<Token>, n: nat, negated: bool): (r: Parse)
    ensures r.Parsed? ==> |r.rest| < |ts|
  {
    if |ts| >= 3 && ts[0] == Mark && ts[1] == EscapeWord && ts[2].Literal? && |ts[2].text| == 1 then
      Parsed(Like(column, n, ts[2].text[0], negated), ts[3..], n + 1)
    else NoParse
  }

  /** What follows a column name. */
  function ParseTest(column: Column, ts: seq<Token>, n: nat): (r: Parse)
    ensures r.Parsed? ==> |r.rest| < |ts|
  {
    if |ts| < 2 then NoParse
    else if ts[0] == GreaterEq && ts[1] == Mark then Parsed(AtLeast(column, n), ts[2..], n + 1)
    else if ts[0] == LessEq && ts[1] == Mark then Parsed(AtMost(column, n), ts[2..], n + 1)
    else if ts[0] == IsWord && ts[1] == NullWord then Parsed(IsNull(column), ts[2..], n)
    else if ts[0] == LikeWord then ParseLike(column, ts[1..], n, false)
    else if ts[0] == NotWord && ts[1] == LikeWord then ParseLike(column, ts[2..], n, true)
    else if ts[0] == InWord && ts[1] == Open then
      match ParseMarks(ts[2..])
      case NoMarks => NoParse
      case Marks(count, rest) => Parsed(OneOf(column, n, count), rest, n + count)
    else NoParse
  }

  function ParsePrimary(ts: seq<Token>, n: nat): (r: Parse)
    ensures r.Parsed? ==> |r.rest| < |ts|
    decreases |ts|, 0
  {
    if ts == [] then NoParse
    else if ts[0].Name? then ParseTest(ts[0].column, ts[1..], n)
    else if ts[0] != Open then NoParse
    else
      match ParseOr(ts[1..], n)
      case NoParse => NoParse
      case Parsed(e, rest, next) => if rest != [] && rest[0] == Close then Parsed(e, rest[1..], next) else NoParse
  }

  /** AND binds tighter than OR. */
  function ParseAnd(ts: seq<Token>, n: nat): (r: Parse)
    ensures r.Parsed? ==> |r.rest| < |ts|
    decreases |ts|, 1
  {
    match ParsePrimary(ts, n)
    case NoParse => NoParse
    case Parsed(e, rest, next) =>
      if rest == [] || rest[0] != AndWord then Parsed(e, rest, next)
      else
        match ParseAnd(rest[1..], next)
        case NoParse => NoParse
        case Parsed(f, rest', next') => Parsed(And(e, f), rest', next')
  }

  function ParseOr(ts: seq<Token>, n: nat): (r: Parse)
    ensures r.Parsed? ==> |r.rest| < |ts|
    decreases |ts|, 2
  {
    match ParseAnd(ts, n)
    case NoParse => NoParse
    case Parsed(e, rest, next) =>
      if rest == [] || rest[0] != OrWord then Parsed(e, rest, next)
      else
        match ParseOr(rest[1..], next)
        case NoParse => NoParse
        case Parsed(f, rest', next') => Parsed(Or(e, f), rest', next')
  }

  lemma IsNullParses(column: Column, rest: seq<Token>, n: nat)
    ensures ParsePrimary([Name(column), IsWord, NullWord] + rest, n) == Parsed(IsNull(column), rest, n)
  {
    assert ([Name(column), IsWord, NullWord] + rest)[1..] == [IsWord, NullWord] + rest;
    assert ([IsWord, NullWord] + rest)[2..] == rest;
  }

  lemma LikeParses(column: Column, escape: char, negated: bool, rest: seq<Token>, n: nat)
    ensures var words := if negated then [Name(column), NotWord, LikeWord] else [Name(column), LikeWord];
      ParsePrimary(words + ([Mark, EscapeWord, Literal([escape])] + rest), n)
      == Parsed(Like(column, n, escape, negated), rest, n + 1)
  {
    var operand := [Mark, EscapeWord, Literal([escape])] + rest;
    assert operand[3..] == rest;
    if negated {
      assert ([Name(column), NotWord, LikeWord] + operand)[1..] == [NotWord, LikeWord] + operand;
      assert ([NotWord, LikeWord] + operand)[2..] == operand;
    } else {
      assert ([Name(column), LikeWord] + operand)[1..] == [LikeWord] + operand;
      assert ([LikeWord] + operand)[1..] == operand;
    }
  }

  /** Two tests with OR between them need their parentheses to be one unit. */
  lemma ParenthesesParse(ts: seq<Token>, e: Expr, n: nat, us: seq<Token>, f: Expr, n1: nat, rest: seq<Token>, n2: nat)
    requires ParsePrimary(ts, n) == Parsed(e, [OrWord] + us, n1)
    requires ParsePrimary(us, n1) == Parsed(f, [Close] + rest, n2)
    ensures ParsePrimary([Open] + ts, n) == Parsed(Or(e, f), rest, n2)
  {
    assert ([OrWord] + us)[1..] == us && ([Close] + rest)[1..] == rest && ([Open] + ts)[1..] == ts;
    assert ParseOr(us, n1) == Parsed(f, [Close] + rest, n2);
    assert ParseOr(ts, n) == Parsed(Or(e, f), [Close] + rest, n2);
  }

  // ---- rows and values ----------------------------------------------------------------------------

  /** A row of audit_events; the columns without NOT NULL are options. */
  datatype AuditRow = AuditRow(
    at: Stamp, eventType: string, authMethod: Option<string>, email: Option<string>, serviceId: Option<string>,
    ipAddress: Option<string>, details: Option<string>, success: int)

  function Nullable(v: Option<string>): Value {
    match v
    case None => Null
    case Some(s) => Text(s)
  }

  function Get(row: AuditRow, column: Column): Value {
    match column
    case CreatedAt => Text(FormatStamp(row.at))
    case EventType => Text(row.eventType)
    case AuthMethod => Nullable(row.authMethod)
    case ServiceId => Nullable(row.serviceId)
    case Email => Nullable(row.email)
    case IpAddress => Nullable(row.ipAddress)
    case Details => Nullable(row.details)
    case Success => Number(row.success)
  }

  /** An unbound parameter is NULL. */
  function Arg(args: seq<Value>, mark: nat): Value {
    if mark < |args| then args[mark] else Null
  }

  // ---- evaluation ---------------------------------------------------------------------------------

  function Truly(b: bool): Truth {
    if b then True else False
  }

  function Negate(t: Truth): Truth {
    match t
    case True => False
    case False => True
    case Unknown => Unknown
  }

  function Either(s: Truth, t: Truth): Truth {
    if s == True || t == True then True else if s == False && t == False then False else Unknown
  }

  function Both(s: Truth, t: Truth): Truth {
    if s == False || t == False then False else if s == True && t == True then True else Unknown
  }

  /** Numbers come before texts. */
  function LessOrEqual(a: Value, b: Value): Truth {
    match (a, b)
    case (Text(s), Text(t)) => Truly(TextLe(s, t))
    case (Number(i), Number(j)) => Truly(i <= j)
    case (Number(_), Text(_)) => True
    case (Text(_), Number(_)) => False
    case _ => Unknown
  }

  function Equal(a: Value, b: Value): Truth {
    if a == Null || b == Null then Unknown else Truly(a == b)
  }

  function AmongMarks(v: Value, args: seq<Value>, mark: nat, count: nat): Truth
    decreases count
  {
    if count == 0 then False else Either(Equal(v, Arg(args, mark)), AmongMarks(v, args, mark + 1, count - 1))
  }

  /** LIKE folds the 26 ASCII letters and nothing else. */
  function Fold(c: char): char {
    if 'A' <= c <= 'Z' then c + 32 as char else c
  }

  /** Two characters fold alike when they are the same, or one ASCII letter in its two cases. */
  lemma FoldExactly(c: char, d: char)
    ensures Fold(c) == Fold(d)
            <==> || c == d
                 || ('A' <= c <= 'Z' && d as int == c as int + 32)
                 || ('A' <= d <= 'Z' && c as int == d as int + 32)
  {
  }

  predicate LikeMatches(pattern: string, s: string, escape: char)
    decreases |pattern| + |s|
  {
    if pattern == "" then s == ""
    else if pattern[0] == escape then
      |pattern| >= 2 && s != "" && Fold(pattern[1]) == Fold(s[0]) && LikeMatches(pattern[2..], s[1..], escape)
    else if pattern[0] == '%' then
      LikeMatches(pattern[1..], s, escape) || (s != "" && LikeMatches(pattern, s[1..], escape))
    else if pattern[0] == '_' then s != "" && LikeMatches(pattern[1..], s[1..], escape)
    else s != "" && Fold(pattern[0]) == Fold(s[0]) && LikeMatches(pattern[1..], s[1..], escape)
  }

  function LikeValue(v: Value, pattern: Value, escape: char): Truth {
    if v.Text? && pattern.Text? then Truly(LikeMatches(pattern.text, v.text, escape)) else Unknown
  }

  function Eval(e: Expr, args: seq<Value>, row: AuditRow): Truth {
    match e
    case AtLeast(c, m) => LessOrEqual(Arg(args, m), Get(row, c))
    case AtMost(c, m) => LessOrEqual(Get(row, c), Arg(args, m))
    case OneOf(c, m, k) => AmongMarks(Get(row, c), args, m, k)
    case IsNull(c) => Truly(Get(row, c) == Null)
    case Like(c, m, escape, negated) =>
      var t := LikeValue(Get(row, c), Arg(args, m), escape);
      if negated then Negate(t) else t
    case Or(l, r) => Either(Eval(l, args, row), Eval(r, args, row))
    case And(l, r) => Both(Eval(l, args, row), Eval(r, args, row))
  }

  /** A WHERE text selects the rows on which it is true; it must parse whole and use every argument. */
  predicate Selects(text: seq<Token>, args: seq<Value>, row: AuditRow) {
    match ParseOr(text, 0)
    case NoParse => false
    case Parsed(e, rest, next) => rest == [] && next == |args| && Eval(e, args, row) == True
  }

  // ---- LIKE as a literal search -------------------------------------------------------------------

  /** strings.NewReplacer with the three metacharacters of LIKE. */
  function EscapeLike(s: string): string {
    if s == "" then ""
    else (if s[0] in {'\\', '%', '_'} then ['\\', s[0]] else [s[0]]) + EscapeLike(s[1..])
  }

  /** The needle stands at i, up to the case of ASCII letters. */
  predicate OccursAt(s: string, needle: string, i: int) {
    0 <= i && i + |needle| <= |s| && forall k :: 0 <= k < |needle| ==> Fold(s[i + k]) == Fold(needle[k])
  }

  ghost predicate Contains(s: string, needle: string) {
    exists i :: OccursAt(s, needle, i)
  }

  lemma {:induction false} PercentMatchesAll(s: string)
    ensures LikeMatches("%", s, '\\')
  {
    if s != "" { PercentMatchesAll(s[1..]); }
  }

  lemma StepInto(s: string, needle: string)
    requires s != "" && needle != ""
    ensures OccursAt(s, needle, 0) <==> Fold(s[0]) == Fold(needle[0]) && OccursAt(s[1..], needle[1..], 0)
  {
    if OccursAt(s[1..], needle[1..], 0) && Fold(s[0]) == Fold(needle[0]) {
      forall k | 0 <= k < |needle| ensures Fold(s[0 + k]) == Fold(needle[k]) {
        if k > 0 { assert Fold(s[1..][0 + (k - 1)]) == Fold(needle[1..][k - 1]); }
      }
    }
    if OccursAt(s, needle, 0) {
      forall k | 0 <= k < |needle[1..]| ensures Fold(s[1..][0 + k]) == Fold(needle[1..][k]) {
        assert Fold(s[0 + (k + 1)]) == Fold(needle[k + 1]);
      }
      assert Fold(s[0 + 0]) == Fold(needle[0]);
    }
  }

  /** An escaped needle with an open end matches the texts that begin with the needle. */
  lemma {:induction false} EscapedMatchesPrefix(needle: string, s: string)
    ensures LikeMatches(EscapeLike(needle) + "%", s, '\\') <==> OccursAt(s, needle, 0)
  {
    var pattern := EscapeLike(needle) + "%";
    if needle == "" {
      assert pattern == "%";
      PercentMatchesAll(s);
    } else {
      var more := EscapeLike(needle[1..]) + "%";
      if needle[0] in {'\\', '%', '_'} {
        assert pattern == ['\\', needle[0]] + more && pattern[2..] == more;
      } else {
        assert pattern == [needle[0]] + more && pattern[1..] == more;
      }
      if s != "" {
        EscapedMatchesPrefix(needle[1..], s[1..]);
        StepInto(s, needle);
      }
    }
  }

  lemma StepOver(s: string, needle: string, i: int)
    requires s != "" && i > 0
    ensures OccursAt(s, needle, i) <==> OccursAt(s[1..], needle, i - 1)
  {
    if OccursAt(s, needle, i) {
      forall k | 0 <= k < |needle| ensures Fold(s[1..][i - 1 + k]) == Fold(needle[k]) {
        assert Fold(s[i + k]) == Fold(needle[k]);
      }
    }
    if OccursAt(s[1..], needle, i - 1) {
      forall k | 0 <= k < |needle| ensures Fold(s[i + k]) == Fold(needle[k]) {
        assert Fold(s[1..][i - 1 + k]) == Fold(needle[k]);
      }
    }
  }

  lemma ContainsBySteps(s: string, needle: string)
    requires s != ""
    ensures Contains(s, needle) <==> OccursAt(s, needle, 0) || Contains(s[1..], needle)
  {
    if Contains(s[1..], needle) {
      var i :| OccursAt(s[1..], needle, i);
      StepOver(s, needle, i + 1);
    }
    if Contains(s, needle) && !OccursAt(s, needle, 0) {
      var i :| OccursAt(s, needle, i);
      StepOver(s, needle, i);
    }
  }

  /** LIKE over the escaped needle between two percent signs is a plain search, for every needle. */
  lemma {:induction false} LikeIsSearch(s: string, needle: string)
    ensures LikeMatches("%" + EscapeLike(needle) + "%", s, '\\') <==> Contains(s, needle)
    decreases |s|
  {
    var pattern := "%" + EscapeLike(needle) + "%";
    assert pattern[1..] == EscapeLike(needle) + "%";
    EscapedMatchesPrefix(needle, s);
    if s == "" {
      assert OccursAt(s, needle, 0) <==> needle == "";
    } else {
      LikeIsSearch(s[1..], needle);
      ContainsBySteps(s, needle);
    }
  }
}
